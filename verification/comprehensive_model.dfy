/**
 * The comprehensive training script. Its dataset screens the database
 * students as the enhanced script does, but labels a student at risk when
 * the lowest grade is at most 7.5, and fills missing survey texts with fixed
 * defaults. It then picks the best of the trained models by a composite
 * score, tabulates nine decision thresholds and recommends the first one
 * whose recall reaches 0.90. The script spells its accented literals as
 * `Training.Accented`.
 */
module ComprehensiveModel {
  import opened Py
  import opened Text
  import opened Records
  import opened Training
  import Ingest
  import MissingSocio
  import EnhancedModel

  // ----- subjects -----

  /** `HIGH_RISK_SUBJECTS`. */
  const HighRiskSubjects: seq<string> := [
    "Lengua y Literatura", "Matemáticas", "Matemática", "Física", "Emprendimiento",
    "Ciencias Naturales", "Educación ciudadanía", "Inglés"]

  /** `high_risk_count`: the student's subjects that are listed as high risk. */
  function HighRiskCount(subjects: map<string, seq<real>>): (n: nat)
    ensures n <= |subjects|
    ensures n == 0 <==> forall k :: k in subjects ==> k !in HighRiskSubjects
  {
    var listed := subjects.Keys * EnhancedModel.NameSet(HighRiskSubjects);
    EnhancedModel.SubsetSize(listed, subjects.Keys);
    assert listed != {} ==> exists k :: k in subjects && k in HighRiskSubjects by {
      if listed != {} {
        var x :| x in listed;
        assert x in subjects && x in HighRiskSubjects;
      }
    }
    assert (exists k :: k in subjects && k in HighRiskSubjects) ==> listed != {} by {
      if exists k :: k in subjects && k in HighRiskSubjects {
        var x :| x in subjects && x in HighRiskSubjects;
        assert x in listed;
      }
    }
    |listed|
  }

  /**
   * No subject name is ever normalised to the singular "Matemática": a name
   * that strips to it lower-cases to the singular key and is merged into the
   * plural.
   */
  lemma SingularNeverAKey(materia: Field<string>)
    ensures NormalizeSubject(materia, Accented) != Some("Matemática")
  {
    LoweredAgreesWhenSpelledLowerCase(materia, Accented);
    if TruthyStr(GetOpt(materia)) && Strip(materia.v) == "Matemática" {
      var s, key := "Matemática", Accented.matematica;
      assert |s| == |key| == 10 && s[1..] == key[1..] && s[0] == 'M' && key[0] == 'm';
      EnhancedModel.LowerSameTail(s, key);
      AccentedSubjectIsLowerCase();
      LowerOfLowered(key);
    }
  }

  /** So "Matemática" is never a key of `subject_grades`. */
  lemma SingularNotASubject(rows: seq<GradeRecord>)
    ensures "Matemática" !in SubjectGrades(rows, Accented, map[])
  {
    SubjectGradesKeys(rows, Accented, map[]);
    forall i | 0 <= i < |rows| ensures SubjectKey(rows[i], Accented) != Some("Matemática") {
      SingularNeverAKey(rows[i].materia);
    }
    assert Some("Matemática") !in RowKeys(rows, Accented);
  }

  lemma HighRiskSubjectsAreDistinct()
    ensures EnhancedModel.Distinct(HighRiskSubjects)
  {
    var h := HighRiskSubjects;
    assert h[0][0] == 'L' && h[3][0] == 'F' && h[5][0] == 'C' && h[7][0] == 'I';
    assert h[1][0] == 'M' && h[2][0] == 'M' && |h[1]| == 11 && |h[2]| == 10;
    assert h[4][..2] == "Em" && h[6][..2] == "Ed";
  }

  /** Distinct names make a set of as many names. */
  lemma {:induction false} DistinctNameSetSize(names: seq<string>)
    requires EnhancedModel.Distinct(names)
    ensures |EnhancedModel.NameSet(names)| == |names|
  {
    if names != [] {
      EnhancedModel.DistinctSplit(names);
      DistinctNameSetSize(names[1..]);
    }
  }

  /**
   * The singular in the high-risk list is never a subject, so a student's
   * high-risk count is at most seven of the eight listed names.
   */
  lemma HighRiskAtMostSeven(rows: seq<GradeRecord>)
    ensures HighRiskCount(SubjectGrades(rows, Accented, map[])) <= 7
  {
    var subjects := SubjectGrades(rows, Accented, map[]);
    var listed := EnhancedModel.NameSet(HighRiskSubjects);
    SingularNotASubject(rows);
    HighRiskSubjectsAreDistinct();
    DistinctNameSetSize(HighRiskSubjects);
    assert "Matemática" in listed by {
      assert HighRiskSubjects[2] == "Matemática";
    }
    EnhancedModel.SubsetSize(subjects.Keys * listed, listed - {"Matemática"});
  }

  // ----- survey texts -----

  /**
   * A text column of a survey sheet: `str(row.get(col, default))`, the
   * default without a row, and the default again in place of "nan" (which is
   * how a missing value prints).
   */
  function Categorical(row: Option<Row>, col: string, default: string): (r: string)
    ensures r == "nan" ==> default == "nan"
    ensures row.None? || col !in row.value || row.value[col].NaN? ==> r == default
    ensures row.Some? && col in row.value && CellText(row.value[col]) != "nan" ==> r == CellText(row.value[col])
  {
    var text := if row.None? then default else TextOr(row.value, col, default);
    if text == "nan" then default else text
  }

  /** `nivel_instruccion_num`: the level of the representative's cleaned instruction text. */
  function InstructionLevel(parent: Option<Row>): (n: nat)
    ensures n <= 5
  {
    ParseEducationLevel(Categorical(parent, "Nivel Instruccion", "Secundaria completa"), Accented)
  }

  /** The script's level keys are lower case, so its lookup is the lowered lookup. */
  lemma AccentedLevelAgrees(value: string)
    ensures ParseEducationLevel(value, Accented) == ParseEducationLevelLowered(value, Accented)
  {
    AccentedLevelsAreLowerCase();
    LowerKeysOfLoweredTable(EducationLevels(Accented), LevelText(value));
  }

  /** Any capitalisation of "secundaria completa", stripped, is level 3. */
  lemma SecundariaCompletaIsThree(v: string)
    requires LevelText(v) == "secundaria completa"
    ensures ParseEducationLevel(v, Accented) == 3
  {
    var table := EducationLevels(Accented);
    assert forall j :: 0 <= j < 7 ==> |table[j].0| != 19;
    LevelOfFirst(table, LevelText(v), false, 7);
  }

  /** The default instruction text, stripped and lower-cased, is the level-3 key. */
  lemma DefaultInstructionText(s: string)
    requires s == "Secundaria completa"
    ensures LevelText(s) == "secundaria completa"
  {
    var t := "secundaria completa";
    DefaultInstructionParts(s, t);
    LowerCaseKeysB();
    LevelTextOfCapitalised(s, t);
  }

  lemma DefaultInstructionParts(s: string, t: string)
    requires s == "Secundaria completa" && t == "secundaria completa"
    ensures Strip(s) == s && |s| == |t| && s != [] && s[1..] == t[1..] && LowerChar(s[0]) == t[0]
  {
    DefaultInstructionStripped(s);
    DefaultInstructionTail(s, t);
  }

  lemma DefaultInstructionStripped(s: string)
    requires s == "Secundaria completa"
    ensures Strip(s) == s
  {
    StripOfEdgeless(s);
  }

  lemma DefaultInstructionTail(s: string, t: string)
    requires s == "Secundaria completa" && t == "secundaria completa"
    ensures |s| == |t| && s != [] && s[1..] == t[1..] && LowerChar(s[0]) == t[0]
  {
    assert s[0] == 'S' && t[0] == 's';
  }

  /** A stripped text that differs from a lower-case text only by its capital first letter has that text as its level text. */
  lemma LevelTextOfCapitalised(s: string, t: string)
    requires Strip(s) == s && |s| == |t| && s != [] && s[1..] == t[1..] && LowerChar(s[0]) == t[0]
    requires IsLowered(t)
    ensures LevelText(s) == t
  {
    EnhancedModel.LowerSameTail(s, t);
    LowerOfLowered(t);
  }

  /**
   * A representative row with no instruction text is level 3 here, where the
   * enhanced script reads the text "nan" and gives level 2.
   */
  lemma MissingInstructionDiverges(parent: Row)
    requires "Nivel Instruccion" in parent && parent["Nivel Instruccion"].NaN?
    ensures InstructionLevel(Some(parent)) == 3
    ensures ParseEducationLevel(EnhancedModel.InstructionText(Some(parent)), Misdecoded) == 2
  {
    var s := Categorical(Some(parent), "Nivel Instruccion", "Secundaria completa");
    DefaultInstructionText(s);
    SecundariaCompletaIsThree(s);
    EnhancedModel.MissingInstructionIsNan(parent);
  }

  /** "3 o más" is four TVs for the training scripts and three for the household import. */
  lemma ThreeOrMoreCountsDiffer()
    ensures ParseCount(Str("3 o más"), Accented) == 4
    ensures MissingSocio.ParseTvCount(Str("3 o más")) == 3
  {
    ThreeOrMoreIsFour();
    ThreeOrMoreIsThree();
  }

  lemma ThreeOrMoreIsFour()
    ensures ParseCount(Str("3 o más"), Accented) == 4
  {
    var v := "3 o más";
    StripOfEdgeless(v);
    assert ThreeOrMore(Accented) == v;
    ContainsWhole(v);
  }

  lemma ThreeOrMoreIsThree()
    ensures MissingSocio.ParseTvCount(Str("3 o más")) == 3
  {
    var v := "3 o más";
    StripOfEdgeless(v);
    assert v == MissingSocio.ThreeOrMore[0];
  }

  // ----- the record -----

  /** The columns of one record that this model keeps. */
  datatype ComprehensiveRecord = ComprehensiveRecord(
    atRisk: bool, nivel: Nivel, ageStatus: AgeStatus, genero: string, quintil: int,
    tipoVivienda: string, materialParedes: string, materialPiso: string, cuartosBano: int, tipoSanitario: string,
    techScore: nat, numVehiculos: int, assetScore: nat, digitalScore: nat,
    edadRepresentante: int, relacion: string, estadoCivil: string, nivelInstruccionNum: nat, ocupacionJefe: string,
    numSubjects: nat, highRiskCount: nat, takesMatematicas: bool)

  /** Some grade is at most 7.5. */
  predicate AnyLowGrade(grades: seq<real>) {
    exists i :: 0 <= i < |grades| && grades[i] <= 7.5
  }

  /** `int()` of the quintil or of the representative's age raises. */
  predicate SheetsFail(s: Student, sheets: Sheets, n: int) {
    Quintil(RowFor(sheets.firstPage, n), s.quintil).Err? || ParentAge(RowFor(sheets.parent, n)).Err?
  }

  /**
   * The record of a screened student with number `n`, its grades and its
   * per-subject grades.
   */
  function RecordOf(s: Student, sheets: Sheets, n: int, grades: seq<real>, subjects: map<string, seq<real>>): (r: Result<ComprehensiveRecord>)
    requires grades != []
    ensures r.Err? <==> SheetsFail(s, sheets, n)
    ensures r.Ok? ==> (r.value.atRisk <==> AnyLowGrade(grades)) && (r.value.atRisk <==> Min(grades) <= 7.5)
    ensures r.Ok? ==> r.value.quintil == Quintil(RowFor(sheets.firstPage, n), s.quintil).value
    ensures r.Ok? ==> r.value.edadRepresentante == ParentAge(RowFor(sheets.parent, n)).value
    ensures r.Ok? ==> r.value.tipoVivienda != "nan" && r.value.materialParedes != "nan" && r.value.materialPiso != "nan"
    ensures r.Ok? ==> r.value.tipoSanitario != "nan" && r.value.relacion != "nan" && r.value.estadoCivil != "nan"
    ensures r.Ok? ==> r.value.ocupacionJefe != "nan"
    ensures r.Ok? ==> r.value.genero != "" && r.value.nivelInstruccionNum <= 5 && 0 <= r.value.cuartosBano <= 3
    ensures r.Ok? ==> r.value.techScore <= 3 && r.value.assetScore <= 6 && r.value.digitalScore <= 3
    ensures r.Ok? ==> r.value.numSubjects == |subjects| && r.value.highRiskCount <= r.value.numSubjects
    ensures r.Ok? ==> (r.value.takesMatematicas <==> Accented.matematicas in subjects)
  {
    var q := Quintil(RowFor(sheets.firstPage, n), s.quintil);
    var age := ParentAge(RowFor(sheets.parent, n));
    if q.Err? then Err(q.error)
    else if age.Err? then Err(age.error)
    else Ok(NewRecord(s, RowFor(sheets.house, n), RowFor(sheets.habit, n), RowFor(sheets.parent, n),
                      RowFor(sheets.economic, n), q.value, age.value, grades, subjects))
  }

  /** The record's columns, once the quintile and the parent's age have been read. */
  function NewRecord(s: Student, house: Option<Row>, habit: Option<Row>, parent: Option<Row>, economic: Option<Row>, q: int, age: int,
                     grades: seq<real>, subjects: map<string, seq<real>>): (r: ComprehensiveRecord)
    requires grades != []
    ensures (r.atRisk <==> AnyLowGrade(grades)) && (r.atRisk <==> Min(grades) <= 7.5)
    ensures r.quintil == q && r.edadRepresentante == age
    ensures r.tipoVivienda != "nan" && r.materialParedes != "nan" && r.materialPiso != "nan"
    ensures r.tipoSanitario != "nan" && r.relacion != "nan" && r.estadoCivil != "nan"
    ensures r.ocupacionJefe != "nan"
    ensures r.genero != "" && r.nivelInstruccionNum <= 5 && 0 <= r.cuartosBano <= 3
    ensures r.techScore <= 3 && r.assetScore <= 6 && r.digitalScore <= 3
    ensures r.numSubjects == |subjects| && r.highRiskCount <= r.numSubjects
    ensures r.takesMatematicas <==> Accented.matematicas in subjects
  {
    ComprehensiveRecord(
      Min(grades) <= 7.5, NivelEducativo(s.grado), AgeGradeStatus(s.edad, s.grado), Genero(s), q,
      Categorical(house, "Tipo vivienda", "Casa/Villa"), Categorical(house, "Material_Pared", "Ladrillo"),
      Categorical(house, "Material_Piso", "Cerámica/Baldosa"), Bathrooms(house, Accented),
      Categorical(house, "Servicio_Higienico", "Conectado a red pública"),
      TechScore(house), Vehicles(habit, Accented), AssetScore(habit, Accented), DigitalScore(habit),
      age, Categorical(parent, "Relacion", "Madre"), Categorical(parent, "Estado civil", "Casado"),
      InstructionLevel(parent), Categorical(economic, "Ocupacion_Jefe", "Servicios"),
      |subjects|, HighRiskCount(subjects), Accented.matematicas in subjects)
  }

  // ----- screening and the dataset -----

  /**
   * One turn of the student loop: ids that are not codes are passed over; a
   * student without grades, then one with an unknown grade level, is
   * skipped; every other student is kept as a record.
   */
  function Screen(s: Student, sheets: Sheets): (r: Result<Outcome<ComprehensiveRecord>>)
    ensures r.Err? <==> (StudentNumber(s.id).Err? ||
      (EnhancedModel.Coded(s) && GradesOf(AcademicRows(s)) != [] && NivelEducativo(s.grado) != UnknownNivel
       && SheetsFail(s, sheets, StudentNumber(s.id).value.value)))
    ensures r.Ok? ==> (r.value.NotACode? <==> !EnhancedModel.Coded(s))
    ensures r.Ok? ==> (r.value.NoAcademic? <==> EnhancedModel.Coded(s) && GradesOf(AcademicRows(s)) == [])
    ensures r.Ok? ==> (r.value.UnknownGrade? <==>
      EnhancedModel.Coded(s) && GradesOf(AcademicRows(s)) != [] && NivelEducativo(s.grado) == UnknownNivel)
    ensures r.Ok? && r.value.Kept? ==> (r.value.record.atRisk <==> AnyLowGrade(GradesOf(AcademicRows(s))))
    ensures r.Ok? && r.value.Kept? ==> r.value.record.nivel == NivelEducativo(s.grado) != UnknownNivel
    ensures r.Ok? && r.value.Kept? ==> r.value.record.highRiskCount <= 7
  {
    match StudentNumber(s.id)
    case Err(e) => Err(e)
    case Ok(None) => Ok(NotACode)
    case Ok(Some(n)) =>
      var rows := AcademicRows(s);
      var grades := GradesOf(rows);
      if grades == [] then Ok(NoAcademic)
      else if NivelEducativo(s.grado) == UnknownNivel then Ok(UnknownGrade)
      else
        HighRiskAtMostSeven(rows);
        match RecordOf(s, sheets, n, grades, SubjectGrades(rows, Accented, map[]))
        case Err(e) => Err(e)
        case Ok(rec) => Ok(Kept(rec))
  }

  /** The tally after one more student. */
  function StudentStep(t: Tally<ComprehensiveRecord>, s: Student, sheets: Sheets): Result<Tally<ComprehensiveRecord>> {
    match Screen(s, sheets)
    case Err(e) => Err(e)
    case Ok(o) => Ok(Tallied(t, o))
  }


  /** The tally after the students, in order; the first error stops the script. */
  function DatasetOf(students: seq<Student>, sheets: Sheets): Result<Tally<ComprehensiveRecord>> {
    if students == [] then Ok(Tally([], 0, 0))
    else match DatasetOf(students[..|students| - 1], sheets)
      case Err(e) => Err(e)
      case Ok(t) => StudentStep(t, students[|students| - 1], sheets)
  }

  lemma DatasetStep(students: seq<Student>, sheets: Sheets, i: nat)
    requires i < |students|
    ensures DatasetOf(students[..i + 1], sheets) ==
      if DatasetOf(students[..i], sheets).Err? then DatasetOf(students[..i], sheets)
      else StudentStep(DatasetOf(students[..i], sheets).value, students[i], sheets)
  {
    assert students[..i + 1][..i] == students[..i];
  }

  /** Once a prefix fails, the whole run fails with the same error. */
  lemma {:induction false} DatasetStops(students: seq<Student>, sheets: Sheets, i: nat)
    requires i <= |students| && DatasetOf(students[..i], sheets).Err?
    ensures DatasetOf(students, sheets) == DatasetOf(students[..i], sheets)
    decreases |students| - i
  {
    if i < |students| {
      DatasetStep(students, sheets, i);
      DatasetStops(students, sheets, i + 1);
    } else {
      assert students[..i] == students;
    }
  }

  /** One turn of the script's student loop. */
  method ScreenOne(s: Student, sheets: Sheets) returns (r: Result<Outcome<ComprehensiveRecord>>)
    ensures r == Screen(s, sheets)
  {
    var num := StudentNumber(s.id);
    if num.Err? {
      return Err(num.error);
    }
    if num.value.None? {
      return Ok(NotACode);
    }
    var rows := AcademicRows(s);
    if rows == [] {
      return Ok(NoAcademic);
    }
    var grades, subjectGrades := GatherGrades(rows, Accented);
    if grades == [] {
      return Ok(NoAcademic);
    }
    if NivelEducativo(s.grado) == UnknownNivel {
      return Ok(UnknownGrade);
    }
    var rec := RecordOf(s, sheets, num.value.value, grades, subjectGrades);
    if rec.Err? {
      return Err(rec.error);
    }
    r := Ok(Kept(rec.value));
  }

  /** The script's student loop. */
  method BuildComprehensiveDataset(students: seq<Student>, sheets: Sheets) returns (r: Result<Tally<ComprehensiveRecord>>)
    ensures r == DatasetOf(students, sheets)
  {
    var t: Tally<ComprehensiveRecord> := Tally([], 0, 0);
    var i := 0;
    while i < |students|
      invariant 0 <= i <= |students|
      invariant DatasetOf(students[..i], sheets) == Ok(t)
    {
      DatasetStep(students, sheets, i);
      var outcome := ScreenOne(students[i], sheets);
      if outcome.Err? {
        DatasetStops(students, sheets, i + 1);
        return Err(outcome.error);
      }
      t := TallyOutcome(t, outcome.value);
      i := i + 1;
    }
    assert students[..i] == students;
    r := Ok(t);
  }


  // ----- what the dataset holds -----

  /** Every coded student is either a record or counted as skipped. */
  lemma {:induction false} DatasetAccounts(students: seq<Student>, sheets: Sheets)
    requires DatasetOf(students, sheets).Ok?
    ensures var t := DatasetOf(students, sheets).value;
      |t.records| + t.noAcademic + t.unknownGrade == EnhancedModel.CodedCount(students)
  {
    if students != [] {
      DatasetAccounts(students[..|students| - 1], sheets);
    }
  }

  /** Every record comes from a kept student of the input. */
  lemma {:induction false} RecordsComeFromKeptStudents(students: seq<Student>, sheets: Sheets)
    requires DatasetOf(students, sheets).Ok?
    ensures forall rec :: rec in DatasetOf(students, sheets).value.records ==>
      exists s :: s in students && Screen(s, sheets) == Ok(Kept(rec))
  {
    if students != [] {
      var init := students[..|students| - 1];
      var s := students[|students| - 1];
      RecordsComeFromKeptStudents(init, sheets);
      var before := DatasetOf(init, sheets).value.records;
      forall rec | rec in DatasetOf(students, sheets).value.records
        ensures exists s :: s in students && Screen(s, sheets) == Ok(Kept(rec))
      {
        if rec in before {
          var t :| t in init && Screen(t, sheets) == Ok(Kept(rec));
          assert t in students;
        } else {
          assert s in students && Screen(s, sheets) == Ok(Kept(rec));
        }
      }
    }
  }

  /** Every record is labelled at risk exactly when its student has some grade of at most 7.5. */
  lemma RecordsLabelledByLowestGrade(students: seq<Student>, sheets: Sheets)
    requires DatasetOf(students, sheets).Ok?
    ensures forall rec :: rec in DatasetOf(students, sheets).value.records ==>
      exists s :: s in students && Screen(s, sheets) == Ok(Kept(rec)) && (rec.atRisk <==> AnyLowGrade(GradesOf(AcademicRows(s))))
  {
    RecordsComeFromKeptStudents(students, sheets);
  }

  // ----- against the enhanced script -----

  /** Both scripts keep and skip the same students, on the same sheets. */
  lemma ScreeningAgrees(s: Student, sheets: Sheets)
    requires Screen(s, sheets).Ok? && EnhancedModel.Screen(s, sheets).Ok?
    ensures Screen(s, sheets).value.Kept? <==> EnhancedModel.Screen(s, sheets).value.Kept?
    ensures Screen(s, sheets).value.NotACode? <==> EnhancedModel.Screen(s, sheets).value.NotACode?
    ensures Screen(s, sheets).value.NoAcademic? <==> EnhancedModel.Screen(s, sheets).value.NoAcademic?
    ensures Screen(s, sheets).value.UnknownGrade? <==> EnhancedModel.Screen(s, sheets).value.UnknownGrade?
  {
  }

  /** A student the enhanced script flags by the mean grade is flagged here by the lowest grade too. */
  lemma MeanFlagImpliesLowestFlag(s: Student, sheets: Sheets)
    requires Screen(s, sheets).Ok? && Screen(s, sheets).value.Kept?
    requires EnhancedModel.Screen(s, sheets).Ok? && EnhancedModel.Screen(s, sheets).value.Kept?
    ensures EnhancedModel.Screen(s, sheets).value.record.atRisk ==> Screen(s, sheets).value.record.atRisk
  {
    var grades := GradesOf(AcademicRows(s));
    MinAtMostMean(grades);
    assert Min(grades) in grades;
  }

  /** The converse fails: grades 7.0 and 9.0 are flagged by their lowest grade and not by their mean. */
  lemma LowestFlagsMore()
    ensures AnyLowGrade([7.0, 9.0]) && Mean([7.0, 9.0]) > 7.5
  {
    var xs := [7.0, 9.0];
    assert xs[0] <= 7.5;
    assert xs[..1] == [7.0] && [7.0][..0] == [];
    assert Sum(xs) == 16.0;
  }

  // ----- choosing the model -----

  /** The test-set scores of one trained model. */
  datatype Metrics = Metrics(rocAuc: real, recall: real, precision: real)

  /** A model of the comparison: its name and its scores, or None when training or scoring it raised. */
  datatype Trained = Trained(name: string, metrics: Option<Metrics>)

  /** The composite score, which weighs recall as much as the ROC AUC. */
  function Composite(m: Metrics): real {
    0.4 * m.rocAuc + 0.4 * m.recall + 0.2 * m.precision
  }

  /** Scores in [0, 1] give a composite in [0, 1]; a perfect model scores 1. */
  lemma CompositeBounds(m: Metrics)
    requires 0.0 <= m.rocAuc <= 1.0 && 0.0 <= m.recall <= 1.0 && 0.0 <= m.precision <= 1.0
    ensures 0.0 <= Composite(m) <= 1.0
    ensures Composite(m) == 1.0 <==> m == Metrics(1.0, 1.0, 1.0)
  {
  }

  predicate Scored(models: seq<Trained>, i: int) {
    0 <= i < |models| && models[i].metrics.Some?
  }

  function ScoreOf(models: seq<Trained>, i: int): real
    requires Scored(models, i)
  {
    Composite(models[i].metrics.value)
  }

  /**
   * `best_score` and the index of `best_model` after the models, in order:
   * a model replaces the best only with a strictly greater composite; the
   * best score starts at 0.
   */
  function Selection(models: seq<Trained>): (r: (real, Option<nat>))
    ensures r.0 >= 0.0
    ensures r.1.Some? ==> Scored(models, r.1.value) && r.0 == ScoreOf(models, r.1.value) && r.0 > 0.0
    ensures r.1.None? ==> r.0 == 0.0
  {
    if models == [] then (0.0, None)
    else
      var prev := Selection(models[..|models| - 1]);
      var i := |models| - 1;
      if Scored(models, i) && ScoreOf(models, i) > prev.0 then (ScoreOf(models, i), Some(i)) else prev
  }

  /** The first model with the greatest composite, when that composite is positive. */
  predicate FirstBest(models: seq<Trained>, b: nat) {
    Scored(models, b) && ScoreOf(models, b) > 0.0
    && (forall i :: 0 <= i < |models| && Scored(models, i) ==> ScoreOf(models, i) <= ScoreOf(models, b))
    && (forall i :: 0 <= i < b && Scored(models, i) ==> ScoreOf(models, i) < ScoreOf(models, b))
  }

  /**
   * The selection is the first model of greatest composite; there is none
   * exactly when no composite is positive.
   */
  lemma {:induction false} SelectionIsFirstBest(models: seq<Trained>)
    ensures Selection(models).1.Some? ==> FirstBest(models, Selection(models).1.value) && Selection(models).0 == ScoreOf(models, Selection(models).1.value)
    ensures Selection(models).1.None? <==> forall i :: Scored(models, i) ==> ScoreOf(models, i) <= 0.0
    ensures Selection(models).1.None? ==> Selection(models).0 == 0.0
  {
    if models != [] {
      var init := models[..|models| - 1];
      var last := |models| - 1;
      SelectionIsFirstBest(init);
      assert forall i :: 0 <= i < last ==> (Scored(init, i) <==> Scored(models, i));
      assert forall i :: 0 <= i < last && Scored(init, i) ==> ScoreOf(init, i) == ScoreOf(models, i);
    }
  }

  /** A result entry: the name and scores of a model that trained. */
  predicate FromScored(models: seq<Trained>, entry: (string, Metrics)) {
    exists i :: 0 <= i < |models| && Scored(models, i) && entry == (models[i].name, models[i].metrics.value)
  }

  /** The model-comparison loop: the scores of the models that trained, and the index of the best. */
  method SelectBest(models: seq<Trained>) returns (results: seq<(string, Metrics)>, best: Option<nat>)
    ensures best == Selection(models).1
    ensures |results| <= |models|
    ensures forall k :: 0 <= k < |results| ==> FromScored(models, results[k])
    ensures forall i :: Scored(models, i) ==> (models[i].name, models[i].metrics.value) in results
  {
    results := [];
    best := None;
    var bestScore := 0.0;
    var i := 0;
    while i < |models|
      invariant 0 <= i <= |models|
      invariant (bestScore, best) == Selection(models[..i])
      invariant |results| <= i
      invariant forall k :: 0 <= k < |results| ==> FromScored(models, results[k])
      invariant forall j :: 0 <= j < i && Scored(models, j) ==> (models[j].name, models[j].metrics.value) in results
    {
      SelectionStep(models, i);
      var m := models[i];
      if m.metrics.Some? {
        ghost var prev := results;
        results := results + [(m.name, m.metrics.value)];
        assert FromScored(models, results[|prev|]) by {
          assert Scored(models, i) && results[|prev|] == (models[i].name, models[i].metrics.value);
        }
        var composite := Composite(m.metrics.value);
        if composite > bestScore {
          bestScore := composite;
          best := Some(i);
        }
      }
      i := i + 1;
    }
    assert models[..i] == models;
  }

  /** One step of the comparison loop: the next model replaces the best only with a greater composite. */
  lemma SelectionStep(models: seq<Trained>, i: int)
    requires 0 <= i < |models|
    ensures Selection(models[..i + 1]) ==
      if Scored(models, i) && ScoreOf(models, i) > Selection(models[..i]).0 then (ScoreOf(models, i), Some(i))
      else Selection(models[..i])
  {
    var pre := models[..i + 1];
    assert pre[..i] == models[..i];
    assert pre[i] == models[i];
  }

  /** `main`'s unpacking of the comparison: a run with no best model raises. */
  function BestName(models: seq<Trained>): (r: Result<string>)
    ensures r.Err? <==> forall i :: Scored(models, i) ==> ScoreOf(models, i) <= 0.0
    ensures r.Ok? ==> exists b: nat :: FirstBest(models, b) && r.value == models[b].name
  {
    SelectionIsFirstBest(models);
    match Selection(models).1
    case None => Err("TypeError: cannot unpack non-iterable NoneType object")
    case Some(b) => Ok(models[b].name)
  }

  // ----- thresholds -----

  /** The thresholds tried, from high to low. */
  const Thresholds: seq<real> := [0.50, 0.45, 0.40, 0.35, 0.30, 0.25, 0.20, 0.15, 0.10]

  /** The confusion matrix of the predictions `prob >= t` against the labels. */
  datatype Confusion = Confusion(truePos: nat, falsePos: nat, falseNeg: nat, trueNeg: nat)

  function ConfusionAt(prob: seq<real>, labels: seq<bool>, t: real): (c: Confusion)
    requires |prob| == |labels|
    ensures c.truePos + c.falsePos + c.falseNeg + c.trueNeg == |prob|
  {
    if prob == [] then Confusion(0, 0, 0, 0)
    else
      var c := ConfusionAt(prob[..|prob| - 1], labels[..|labels| - 1], t);
      var predicted, actual := prob[|prob| - 1] >= t, labels[|labels| - 1];
      if predicted && actual then c.(truePos := c.truePos + 1)
      else if predicted then c.(falsePos := c.falsePos + 1)
      else if actual then c.(falseNeg := c.falseNeg + 1)
      else c.(trueNeg := c.trueNeg + 1)
  }

  /** The number of positive labels. */
  function Positives(labels: seq<bool>): nat {
    if labels == [] then 0 else Positives(labels[..|labels| - 1]) + if labels[|labels| - 1] then 1 else 0
  }

  /**
   * Every threshold splits the same positives into found and missed, and a
   * lower threshold finds at least as many of them and raises at least as
   * many false alarms.
   */
  lemma {:induction false} ConfusionMonotone(prob: seq<real>, labels: seq<bool>, lo: real, hi: real)
    requires |prob| == |labels| && lo <= hi
    ensures ConfusionAt(prob, labels, lo).truePos + ConfusionAt(prob, labels, lo).falseNeg == Positives(labels)
    ensures ConfusionAt(prob, labels, hi).truePos + ConfusionAt(prob, labels, hi).falseNeg == Positives(labels)
    ensures ConfusionAt(prob, labels, lo).truePos >= ConfusionAt(prob, labels, hi).truePos
    ensures ConfusionAt(prob, labels, lo).falsePos >= ConfusionAt(prob, labels, hi).falsePos
  {
    if prob != [] {
      ConfusionMonotone(prob[..|prob| - 1], labels[..|labels| - 1], lo, hi);
    }
  }

  /** `recall_score` with `zero_division=0`. */
  function Recall(c: Confusion): real {
    if c.truePos + c.falseNeg == 0 then 0.0 else c.truePos as real / (c.truePos + c.falseNeg) as real
  }

  /** `precision_score` with `zero_division=0`. */
  function Precision(c: Confusion): real {
    if c.truePos + c.falsePos == 0 then 0.0 else c.truePos as real / (c.truePos + c.falsePos) as real
  }

  /** `f1_score` with `zero_division=0`. */
  function F1(c: Confusion): real {
    if 2 * c.truePos + c.falsePos + c.falseNeg == 0 then 0.0
    else (2 * c.truePos) as real / (2 * c.truePos + c.falsePos + c.falseNeg) as real
  }

  /** A count out of a larger positive count is a fraction in [0, 1]. */
  lemma FractionInUnit(a: nat, b: nat)
    requires a <= b && b > 0
    ensures 0.0 <= a as real / b as real <= 1.0
  {
    var q := a as real / b as real;
    assert q * b as real == a as real;
  }

  /** The three rates lie in [0, 1]. */
  lemma RatesBounded(c: Confusion)
    ensures 0.0 <= Recall(c) <= 1.0 && 0.0 <= Precision(c) <= 1.0 && 0.0 <= F1(c) <= 1.0
  {
    if c.truePos + c.falseNeg > 0 { FractionInUnit(c.truePos, c.truePos + c.falseNeg); }
    if c.truePos + c.falsePos > 0 { FractionInUnit(c.truePos, c.truePos + c.falsePos); }
    if 2 * c.truePos + c.falsePos + c.falseNeg > 0 { FractionInUnit(2 * c.truePos, 2 * c.truePos + c.falsePos + c.falseNeg); }
  }

  /** Over the same positive count, a larger count is a larger fraction. */
  lemma FractionMonotone(a: nat, b: nat, p: nat)
    requires b <= a && p > 0
    ensures b as real / p as real <= a as real / p as real
  {
    var x, y, pr := a as real / p as real, b as real / p as real, p as real;
    assert x * pr == a as real;
    assert y * pr == b as real;
    assert (x - y) * pr == (a - b) as real;
  }

  /** One row of the threshold table. */
  datatype ThresholdRow = ThresholdRow(threshold: real, recall: real, precision: real, f1: real,
                                       missed: nat, falseAlarms: nat, truePos: nat, trueNeg: nat)

  function RowAt(prob: seq<real>, labels: seq<bool>, t: real): ThresholdRow
    requires |prob| == |labels|
  {
    var c := ConfusionAt(prob, labels, t);
    ThresholdRow(t, Recall(c), Precision(c), F1(c), c.falseNeg, c.falsePos, c.truePos, c.trueNeg)
  }

  /** Lowering the threshold never lowers the recall. */
  lemma RecallMonotone(prob: seq<real>, labels: seq<bool>, lo: real, hi: real)
    requires |prob| == |labels| && lo <= hi
    ensures RowAt(prob, labels, lo).recall >= RowAt(prob, labels, hi).recall
  {
    ConfusionMonotone(prob, labels, lo, hi);
    var a, b := ConfusionAt(prob, labels, lo).truePos, ConfusionAt(prob, labels, hi).truePos;
    var p := Positives(labels);
    if p > 0 {
      FractionMonotone(a, b, p);
    }
  }

  /** `optimize_thresholds`: one row per threshold, in order. */
  method OptimizeThresholds(prob: seq<real>, labels: seq<bool>) returns (rows: seq<ThresholdRow>)
    requires |prob| == |labels|
    ensures |rows| == |Thresholds|
    ensures forall k :: 0 <= k < |rows| ==> rows[k] == RowAt(prob, labels, Thresholds[k])
  {
    rows := [];
    var k := 0;
    while k < |Thresholds|
      invariant 0 <= k <= |Thresholds| && |rows| == k
      invariant forall j :: 0 <= j < k ==> rows[j] == RowAt(prob, labels, Thresholds[j])
    {
      var c := ConfusionAt(prob, labels, Thresholds[k]);
      rows := rows + [ThresholdRow(Thresholds[k], Recall(c), Precision(c), F1(c), c.falseNeg, c.falsePos, c.truePos, c.trueNeg)];
      k := k + 1;
    }
  }

  /** The recall the recommendation asks for. */
  const TargetRecall: real := 0.90

  /** Row `k` is the first whose recall reaches the target. */
  predicate FirstHighRecall(rows: seq<ThresholdRow>, k: nat) {
    k < |rows| && rows[k].recall >= TargetRecall && forall j :: 0 <= j < k ==> rows[j].recall < TargetRecall
  }

  /** The recommendation loop: the first row whose recall is at least 0.90, if any. */
  method RecommendThreshold(rows: seq<ThresholdRow>) returns (pick: Option<nat>)
    ensures pick.Some? ==> FirstHighRecall(rows, pick.value)
    ensures pick.None? <==> forall j :: 0 <= j < |rows| ==> rows[j].recall < TargetRecall
  {
    pick := None;
    var k := 0;
    while k < |rows|
      invariant 0 <= k <= |rows|
      invariant pick.None? ==> forall j :: 0 <= j < k ==> rows[j].recall < TargetRecall
      invariant pick.Some? ==> FirstHighRecall(rows, pick.value)
    {
      if rows[k].recall >= TargetRecall {
        pick := Some(k);
        break;
      }
      k := k + 1;
    }
  }

  lemma ThresholdsDescend()
    ensures forall i, j :: 0 <= i < j < |Thresholds| ==> Thresholds[i] > Thresholds[j]
  {
  }

  /**
   * On the table of `optimize_thresholds`, the recommended threshold is the
   * highest one whose recall reaches the target, and every lower threshold
   * reaches it too.
   */
  lemma RecommendedIsHighest(prob: seq<real>, labels: seq<bool>, rows: seq<ThresholdRow>, k: nat)
    requires |prob| == |labels| && |rows| == |Thresholds|
    requires forall j :: 0 <= j < |rows| ==> rows[j] == RowAt(prob, labels, Thresholds[j])
    requires FirstHighRecall(rows, k)
    ensures forall j :: 0 <= j < |rows| && rows[j].recall >= TargetRecall ==> rows[j].threshold <= rows[k].threshold
    ensures forall j :: k <= j < |rows| ==> rows[j].recall >= TargetRecall
  {
    ThresholdsDescend();
    forall j | k <= j < |rows| ensures rows[j].recall >= TargetRecall {
      RecallMonotone(prob, labels, Thresholds[j], Thresholds[k]);
    }
  }
}
