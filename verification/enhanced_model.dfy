/**
 * The enhanced training script's dataset. Every database student whose id is
 * "EST" followed by an integer is screened. A student without grades or with
 * a grade level outside the expected-age table is skipped and counted. Every
 * other student becomes one record, labelled at risk when the mean grade is
 * at most 7.5 and joined with the five survey sheets by student number. The
 * grades of every screened student are also filed per subject. The script
 * spells its accented literals as `Training.Misdecoded`.
 */
module EnhancedModel {
  import opened Py
  import opened Text
  import opened Records
  import opened Training
  import Ingest

  // ----- the mis-decoded literals -----

  /** No lower-cased text is the singular subject name as the script spells it: the key holds a capital 'Ã'. */
  lemma MisdecodedSingularNeverMatches(s: string)
    ensures Lower(s) != Misdecoded.matematica
  {
    LoweredAvoidsCapital(s, Misdecoded.matematica, 5);
  }

  /**
   * As written, `normalize_subject` merges nothing but the exact text
   * "matematica" into "MatemÃ¡ticas": every other stripped name is kept.
   */
  lemma NothingElseMerged(s: string)
    requires s != [] && Strip(s) == s && Lower(s) != "matematica"
    ensures NormalizeSubject(Val(s), Misdecoded) == Some(s)
  {
    MisdecodedSingularNeverMatches(s);
    assert Lower(Strip(s)) !in [Misdecoded.matematica, "matematica"];
  }

  /**
   * So the singular "MatemÃ¡tica" of the script's own subject list stays
   * apart from the plural.
   */
  lemma SingularNotMerged(s: string)
    requires s == "MatemÃ¡tica"
    ensures NormalizeSubject(Val(s), Misdecoded) == Some(s)
  {
    assert |s| == 11;
    StripOfEdgeless(s);
    NothingElseMerged(s);
  }

  /** Two texts that differ at most in the case of their first letter lower-case alike. */
  lemma LowerSameTail(s: string, t: string)
    requires s != [] && t != [] && s[1..] == t[1..] && LowerChar(s[0]) == LowerChar(t[0])
    ensures Lower(s) == Lower(t)
  {
  }

  /** The lower-cased singular of the script is "matemã¡tica". */
  lemma LoweredSingular(s: string)
    requires s == "MatemÃ¡tica"
    ensures Lower(s) == Lower(Misdecoded.matematica)
  {
    var key := Misdecoded.matematica;
    assert |s| == |key| == 11 && s[0] == 'M' && key[0] == 'm';
    assert s[1..] == key[1..];
    LowerSameTail(s, key);
  }

  /** Compared with the lower-cased key, the singular is merged into the plural. */
  lemma SingularMergedWhenLowered(s: string)
    requires s == "MatemÃ¡tica"
    ensures NormalizeSubjectLowered(Val(s), Misdecoded) == Some(Misdecoded.matematicas)
  {
    assert |s| == 11;
    StripOfEdgeless(s);
    LoweredSingular(s);
    LoweredMergesSingular(s, Misdecoded);
  }

  /** No lower-cased text is either accented level key as the script spells it: both hold a capital 'Ã'. */
  lemma MisdecodedLevelKeysNeverMatch(value: string)
    ensures LevelText(value) != Misdecoded.basica
    ensures LevelText(value) != Misdecoded.superior
  {
    var b, u := Misdecoded.basica, Misdecoded.superior;
    assert |b| == 18 && b[7] == '\U{C3}';
    assert |u| == 19 && u[7] == '\U{C3}';
    LoweredAvoidsCapital(Strip(value), b, 7);
    LoweredAvoidsCapital(Strip(value), u, 7);
  }

  /** The lengths of the keys: only "educaciÃ³n bÃ¡sica" has 18 characters, and of the rest only two have 19. */
  lemma KeyLengths()
    ensures forall i :: 0 <= i < |EducationLevels(Misdecoded)| && i != 4 ==> |EducationLevels(Misdecoded)[i].0| != 18
    ensures forall i :: 0 <= i < |EducationLevels(Misdecoded)| && i != 7 && i != 10 ==> |EducationLevels(Misdecoded)[i].0| != 19
    ensures |EducationLevels(Misdecoded)[4].0| == 18 && |EducationLevels(Misdecoded)[10].0| == 19
  {
  }

  /** A text of 18 characters other than the accented key is not in the mapping. */
  lemma NotAKeyOf18(t: string)
    requires |t| == 18 && t != Misdecoded.basica
    ensures LevelOf(EducationLevels(Misdecoded), t, false).None?
  {
    KeyLengths();
  }

  /** A text of 19 characters other than the accented key, starting with 'e', is not in the mapping. */
  lemma NotAKeyOf19(t: string)
    requires |t| == 19 && t != Misdecoded.superior && t[0] == 'e'
    ensures LevelOf(EducationLevels(Misdecoded), t, false).None?
  {
    KeyLengths();
    assert EducationLevels(Misdecoded)[7].0[0] == 's';
  }

  /**
   * As written, the listed "educaciÃ³n bÃ¡sica" is never found: that very text,
   * in any capitalisation, gets the fallback level 2 instead of its level 1.
   */
  lemma BasicaLevelLost(v: string)
    requires LevelText(v) == Lower(Misdecoded.basica)
    ensures EducationLevels(Misdecoded)[4] == (Misdecoded.basica, 1)
    ensures ParseEducationLevel(v, Misdecoded) == 2
  {
    var t := LevelText(v);
    assert |Misdecoded.basica| == 18;
    assert |t| == 18;
    assert v != "" by {
      if v == "" { StripOfEdgeless(v); }
    }
    MisdecodedLevelKeysNeverMatch(v);
    NotAKeyOf18(t);
  }

  /** Likewise "educaciÃ³n superior" gets 2 instead of 4. */
  lemma SuperiorLevelLost(v: string)
    requires LevelText(v) == Lower(Misdecoded.superior)
    ensures EducationLevels(Misdecoded)[10] == (Misdecoded.superior, 4)
    ensures ParseEducationLevel(v, Misdecoded) == 2
  {
    var t := LevelText(v);
    assert |t| == 19;
    LowerAt(Misdecoded.superior, 0);
    MisdecodedLevelKeysNeverMatch(v);
    NotAKeyOf19(t);
  }

  /**
   * The lowered lookup finds entry `i` when its lower-cased key is the text and
   * every earlier key differs from the text in length or in its lower-cased
   * first letter.
   */
  lemma LoweredFoundAt(table: seq<(string, nat)>, t: string, i: nat)
    requires i < |table| && Lower(table[i].0) == t
    requires forall j :: 0 <= j < i ==> |table[j].0| != |t| || (t != [] && LowerChar(table[j].0[0]) != t[0])
    ensures LevelOf(table, t, true) == Some(table[i].1)
  {
    forall j | 0 <= j < i ensures KeyText(table[j].0, true) != t {
      if |table[j].0| == |t| {
        LowerAt(table[j].0, 0);
      }
    }
    LevelOfFirst(table, t, true, i);
  }

  /** Compared with the lower-cased keys, "educaciÃ³n bÃ¡sica" in any capitalisation is found at level 1. */
  lemma BasicaLevelFoundWhenLowered(v: string)
    requires LevelText(v) == Lower(Misdecoded.basica)
    ensures ParseEducationLevelLowered(v, Misdecoded) == 1
  {
    assert |LevelText(v)| == 18;
    KeyLengths();
    LoweredFoundAt(EducationLevels(Misdecoded), LevelText(v), 4);
  }

  /** Compared with the lower-cased keys, "educaciÃ³n superior" in any capitalisation is found at level 4. */
  lemma SuperiorLevelFoundWhenLowered(v: string)
    requires LevelText(v) == Lower(Misdecoded.superior)
    ensures ParseEducationLevelLowered(v, Misdecoded) == 4
  {
    var table := EducationLevels(Misdecoded);
    var t := LevelText(v);
    assert |t| == 19;
    LowerAt(Misdecoded.superior, 0);
    KeyLengths();
    assert LowerChar(table[7].0[0]) == 's';
    LoweredFoundAt(table, t, 10);
  }

  /** Every key of the mapping but the two accented ones is lower case. */
  lemma OtherKeysLowerCase()
    ensures forall i :: 0 <= i < |EducationLevels(Misdecoded)| && i != 4 && i != 10 ==> IsLowered(EducationLevels(Misdecoded)[i].0)
  {
    LowerCaseKeysA();
    LowerCaseKeysB();
    LowerCaseKeysC();
  }

  /** Where the two accented keys sit in the mapping. */
  lemma MisdecodedKeysAt()
    ensures |EducationLevels(Misdecoded)| == 14
    ensures EducationLevels(Misdecoded)[4].0 == Misdecoded.basica
    ensures EducationLevels(Misdecoded)[10].0 == Misdecoded.superior
  {
  }

  /** Off the two accented keys, the lowered lookup and the lookup as written agree. */
  lemma LoweredAgreesOffTheMisdecodedKeys(value: string)
    requires LevelText(value) != Lower(Misdecoded.basica)
    requires LevelText(value) != Lower(Misdecoded.superior)
    ensures ParseEducationLevelLowered(value, Misdecoded) == ParseEducationLevel(value, Misdecoded)
  {
    if value != "" {
      var table := EducationLevels(Misdecoded);
      var v := LevelText(value);
      LowerIsLowered(Strip(value));
      OtherKeysLowerCase();
      MisdecodedKeysAt();
      LowerKeysAgreeOnOthers(table, v);
    }
  }

  // ----- subject enrollment -----

  /** The subjects `stem_count` adds up, as the script spells them. */
  const StemSubjects: seq<string> := ["MatemÃ¡ticas", "FÃ­sica", "QuÃ­mica", "Ciencias Naturales", "BiologÃ­a"]

  /** The subjects `language_count` adds up, as the script spells them. */
  const LanguageSubjects: seq<string> := ["Lengua y Literatura", "Estudios sociales", "InglÃ©s", "Historia", "EducaciÃ³n ciudadanÃ­a"]

  /** The sum of the `takes_*` flags of the names: how many of them are subjects of the student. */
  function Taken(subjects: map<string, seq<real>>, names: seq<string>): (n: nat)
    ensures n <= |names|
  {
    if names == [] then 0 else (if names[0] in subjects then 1 else 0) + Taken(subjects, names[1..])
  }

  predicate Distinct(names: seq<string>) {
    forall i, j :: 0 <= i < j < |names| ==> names[i] != names[j]
  }

  function NameSet(names: seq<string>): set<string> {
    set x | x in names
  }

  /** For distinct names, the flags count the names that are subjects. */
  lemma {:induction false} TakenCountsSubjects(subjects: map<string, seq<real>>, names: seq<string>)
    requires Distinct(names)
    ensures Taken(subjects, names) == |NameSet(names) * subjects.Keys|
  {
    if names != [] {
      var h, t := names[0], names[1..];
      DistinctSplit(names);
      TakenCountsSubjects(subjects, t);
      InsertedCommonCount(h, NameSet(t), subjects.Keys);
    }
  }

  /** Adding a new name adds one common element exactly when the other set has it. */
  lemma InsertedCommonCount(h: string, names: set<string>, keys: set<string>)
    requires h !in names
    ensures |({h} + names) * keys| == (if h in keys then 1 else 0) + |names * keys|
  {
    if h in keys {
      assert ({h} + names) * keys == {h} + names * keys;
    } else {
      assert ({h} + names) * keys == names * keys;
    }
  }

  /** A list of distinct names is its head, not repeated, and a distinct tail. */
  lemma DistinctSplit(names: seq<string>)
    requires Distinct(names) && names != []
    ensures Distinct(names[1..]) && names[0] !in NameSet(names[1..])
    ensures NameSet(names) == {names[0]} + NameSet(names[1..])
  {
    var h, t := names[0], names[1..];
    forall i, j | 0 <= i < j < |t| ensures t[i] != t[j] {
      assert t[i] == names[i + 1] && t[j] == names[j + 1];
    }
    forall k | 0 <= k < |t| ensures t[k] != h {
      assert t[k] == names[k + 1];
    }
    assert names == [h] + t;
  }

  lemma {:induction false} TakenAppend(subjects: map<string, seq<real>>, a: seq<string>, b: seq<string>)
    ensures Taken(subjects, a + b) == Taken(subjects, a) + Taken(subjects, b)
  {
    if a != [] {
      assert (a + b)[1..] == a[1..] + b;
      TakenAppend(subjects, a[1..], b);
    } else {
      assert a + b == b;
    }
  }

  lemma StemAndLanguageAreDistinct()
    ensures Distinct(StemSubjects + LanguageSubjects)
  {
    var names := StemSubjects + LanguageSubjects;
    assert names[0][0] == 'M' && names[1][0] == 'F' && names[2][0] == 'Q' && names[3][0] == 'C' && names[4][0] == 'B';
    assert names[5][0] == 'L' && names[6][..2] == "Es" && names[7][0] == 'I' && names[8][0] == 'H' && names[9][..2] == "Ed";
  }

  /** The STEM and language counts together never exceed the number of subjects. */
  lemma StemAndLanguageWithinSubjects(subjects: map<string, seq<real>>)
    ensures Taken(subjects, StemSubjects) + Taken(subjects, LanguageSubjects) <= |subjects|
  {
    StemAndLanguageAreDistinct();
    TakenAppend(subjects, StemSubjects, LanguageSubjects);
    TakenCountsSubjects(subjects, StemSubjects + LanguageSubjects);
    SubsetSize(NameSet(StemSubjects + LanguageSubjects) * subjects.Keys, subjects.Keys);
  }

  lemma {:induction false} SubsetSize<T>(a: set<T>, b: set<T>)
    requires a <= b
    ensures |a| <= |b|
  {
    if a != {} {
      var x :| x in a;
      SubsetSize(a - {x}, b - {x});
    }
  }

  // ----- the record -----

  /** The columns of one record that this model keeps. */
  datatype EnhancedRecord = EnhancedRecord(
    atRisk: bool, avgGrade: real,
    nivel: Nivel, ageStatus: AgeStatus, genero: string, quintil: int,
    cuartosBano: int, techScore: nat, numVehiculos: int, hasTransportation: bool, assetScore: nat, digitalScore: nat,
    edadRepresentante: int, nivelInstruccion: string, nivelInstruccionNum: nat,
    numSubjects: nat, stemCount: nat, languageCount: nat)

  /**
   * `nivel_instruccion`: the parent sheet's text, a missing value printing as
   * "nan" (the clean-up loop assigns through `exec`, which leaves the
   * function's variables unchanged).
   */
  function InstructionText(parent: Option<Row>): string {
    if parent.None? then "Secundaria completa" else TextOr(parent.value, "Nivel Instruccion", "Secundaria completa")
  }

  /**
   * The record of a screened student with number `n`, its grades and its
   * per-subject grades; `int()` of the quintil or of the parent's age raises
   * on text that is not an integer.
   */
  function RecordOf(s: Student, sheets: Sheets, n: int, grades: seq<real>, subjects: map<string, seq<real>>): (r: Result<EnhancedRecord>)
    requires grades != []
    ensures r.Err? <==> Quintil(RowFor(sheets.firstPage, n), s.quintil).Err? || ParentAge(RowFor(sheets.parent, n)).Err?
    ensures r.Ok? ==> (r.value.atRisk <==> Mean(grades) <= 7.5) && r.value.avgGrade == Mean(grades)
    ensures r.Ok? ==> r.value.quintil == Quintil(RowFor(sheets.firstPage, n), s.quintil).value
    ensures r.Ok? ==> r.value.genero != "" && r.value.nivelInstruccionNum <= 5 && 0 <= r.value.cuartosBano <= 3
    ensures r.Ok? ==> r.value.techScore <= 3 && r.value.assetScore <= 6 && r.value.digitalScore <= 3
    ensures r.Ok? ==> (r.value.hasTransportation <==> r.value.numVehiculos > 0)
    ensures r.Ok? ==> r.value.numSubjects == |subjects| && r.value.stemCount <= 5 && r.value.languageCount <= 5
    ensures r.Ok? ==> r.value.stemCount + r.value.languageCount <= r.value.numSubjects
  {
    var q := Quintil(RowFor(sheets.firstPage, n), s.quintil);
    var age := ParentAge(RowFor(sheets.parent, n));
    if q.Err? then Err(q.error)
    else if age.Err? then Err(age.error)
    else Ok(NewRecord(s, RowFor(sheets.house, n), RowFor(sheets.habit, n), RowFor(sheets.parent, n),
                      q.value, age.value, grades, subjects))
  }

  /** The record's columns, once the quintile and the parent's age have been read. */
  function NewRecord(s: Student, house: Option<Row>, habit: Option<Row>, parent: Option<Row>, q: int, age: int,
                     grades: seq<real>, subjects: map<string, seq<real>>): (r: EnhancedRecord)
    requires grades != []
    ensures (r.atRisk <==> Mean(grades) <= 7.5) && r.avgGrade == Mean(grades) && r.quintil == q
    ensures r.genero != "" && r.nivelInstruccionNum <= 5 && 0 <= r.cuartosBano <= 3
    ensures r.techScore <= 3 && r.assetScore <= 6 && r.digitalScore <= 3
    ensures r.hasTransportation <==> r.numVehiculos > 0
    ensures r.numSubjects == |subjects| && r.stemCount <= 5 && r.languageCount <= 5
    ensures r.stemCount + r.languageCount <= r.numSubjects
  {
    var avg := Mean(grades);
    var vehicles := Vehicles(habit, Misdecoded);
    var instruction := InstructionText(parent);
    StemAndLanguageWithinSubjects(subjects);
    EnhancedRecord(
      avg <= 7.5, avg,
      NivelEducativo(s.grado), AgeGradeStatus(s.edad, s.grado), Genero(s), q,
      Bathrooms(house, Misdecoded), TechScore(house), vehicles, vehicles > 0, AssetScore(habit, Misdecoded), DigitalScore(habit),
      age, instruction, ParseEducationLevel(instruction, Misdecoded),
      |subjects|, Taken(subjects, StemSubjects), Taken(subjects, LanguageSubjects))
  }

  /** A parent row whose instruction cell is missing gives the text "nan", which is level 2. */
  lemma MissingInstructionIsNan(parent: Row)
    requires "Nivel Instruccion" in parent && parent["Nivel Instruccion"].NaN?
    ensures InstructionText(Some(parent)) == "nan"
    ensures ParseEducationLevel(InstructionText(Some(parent)), Misdecoded) == 2
  {
    var t := InstructionText(Some(parent));
    assert t == "nan";
    StripOfEdgeless(t);
    LowerOfLowered(t);
    assert LevelText(t) == t;
    NoKeyOfThree();
    LengthMissed(EducationLevels(Misdecoded), t);
  }

  /** No key of the mapping has three characters. */
  lemma NoKeyOfThree()
    ensures forall i :: 0 <= i < |EducationLevels(Misdecoded)| ==> |EducationLevels(Misdecoded)[i].0| != 3
  {
  }

  /** A text whose length no key has is found neither as written nor by the lowered lookup. */
  lemma LengthMissed(table: seq<(string, nat)>, t: string)
    requires forall i :: 0 <= i < |table| ==> |table[i].0| != |t|
    ensures LevelOf(table, t, false).None? && LevelOf(table, t, true).None?
  {
    forall i | 0 <= i < |table| ensures KeyText(table[i].0, true) != t {
      assert |Lower(table[i].0)| == |table[i].0|;
    }
  }

  // ----- screening and the dataset -----

  /** The id is "EST" followed by an integer. */
  predicate Coded(s: Student) {
    StudentNumber(s.id).Ok? && StudentNumber(s.id).value.Some?
  }

  /**
   * One turn of the student loop: ids that are not codes are passed over; a
   * student without grades, then one with an unknown grade level, is
   * skipped; every other student is kept as a record.
   */
  function Screen(s: Student, sheets: Sheets): (r: Result<Outcome<EnhancedRecord>>)
    ensures StudentNumber(s.id).Err? ==> r.Err?
    ensures r.Ok? ==> (r.value.NotACode? <==> !Coded(s))
    ensures r.Ok? ==> (r.value.NoAcademic? <==> Coded(s) && GradesOf(AcademicRows(s)) == [])
    ensures r.Ok? ==> (r.value.UnknownGrade? <==>
      Coded(s) && GradesOf(AcademicRows(s)) != [] && NivelEducativo(s.grado) == UnknownNivel)
    ensures r.Ok? && r.value.Kept? ==> Coded(s) && GradesOf(AcademicRows(s)) != [] && NivelEducativo(s.grado) != UnknownNivel
    ensures r.Ok? && r.value.Kept? ==> (r.value.record.atRisk <==> Mean(GradesOf(AcademicRows(s))) <= 7.5)
    ensures r.Ok? && r.value.Kept? ==> r.value.record.avgGrade == Mean(GradesOf(AcademicRows(s)))
    ensures r.Ok? && r.value.Kept? ==> r.value.record.nivel == NivelEducativo(s.grado) != UnknownNivel
  {
    match StudentNumber(s.id)
    case Err(e) => Err(e)
    case Ok(None) => Ok(NotACode)
    case Ok(Some(n)) =>
      var rows := AcademicRows(s);
      var grades := GradesOf(rows);
      if grades == [] then Ok(NoAcademic)
      else if NivelEducativo(s.grado) == UnknownNivel then Ok(UnknownGrade)
      else match RecordOf(s, sheets, n, grades, SubjectGrades(rows, Misdecoded, map[]))
        case Err(e) => Err(e)
        case Ok(rec) => Ok(Kept(rec))
  }

  /** The records, the skip counters and `subject_stats` (the per-subject grade lists). */
  datatype State = State(tally: Tally<EnhancedRecord>, stats: map<string, seq<real>>)

  /** The state after one more student: the grades of every coded student go into the statistics. */
  function StudentStep(st: State, s: Student, sheets: Sheets): Result<State> {
    match Screen(s, sheets)
    case Err(e) => Err(e)
    case Ok(o) =>
      Ok(State(Tallied(st.tally, o),
        if Coded(s) then SubjectGrades(AcademicRows(s), Misdecoded, st.stats) else st.stats))
  }

  /** The state after the students, in order; the first error stops the script. */
  function DatasetOf(students: seq<Student>, sheets: Sheets): Result<State> {
    if students == [] then Ok(State(Tally([], 0, 0), map[]))
    else match DatasetOf(students[..|students| - 1], sheets)
      case Err(e) => Err(e)
      case Ok(st) => StudentStep(st, students[|students| - 1], sheets)
  }

  lemma DatasetStep(students: seq<Student>, sheets: Sheets, i: nat)
    requires i < |students|
    ensures DatasetOf(students[..i + 1], sheets) ==
      if DatasetOf(students[..i], sheets).Err? then DatasetOf(students[..i], sheets)
      else StudentStep(DatasetOf(students[..i], sheets).value, students[i], sheets)
  {
    assert students[..i + 1][..i] == students[..i];
  }

  /** Once a prefix fails, the whole run fails with the same error. */
  lemma {:induction false} DatasetStops(students: seq<Student>, sheets: Sheets, i: nat)
    requires i <= |students| && DatasetOf(students[..i], sheets).Err?
    ensures DatasetOf(students, sheets) == DatasetOf(students[..i], sheets)
    decreases |students| - i
  {
    if i < |students| {
      DatasetStep(students, sheets, i);
      DatasetStops(students, sheets, i + 1);
    } else {
      assert students[..i] == students;
    }
  }

  /** The inner loop over a student's rows: the grades, the per-subject grades, and the updated statistics. */
  method GatherGradesAndStats(rows: seq<GradeRecord>, stats0: map<string, seq<real>>)
    returns (grades: seq<real>, subjectGrades: map<string, seq<real>>, stats: map<string, seq<real>>)
    ensures grades == GradesOf(rows)
    ensures subjectGrades == SubjectGrades(rows, Misdecoded, map[])
    ensures stats == SubjectGrades(rows, Misdecoded, stats0)
  {
    grades, subjectGrades, stats := [], map[], stats0;
    var i := 0;
    while i < |rows|
      invariant 0 <= i <= |rows|
      invariant grades == GradesOf(rows[..i])
      invariant subjectGrades == SubjectGrades(rows[..i], Misdecoded, map[])
      invariant stats == SubjectGrades(rows[..i], Misdecoded, stats0)
    {
      GatherStep(rows, i, Misdecoded, map[]);
      GatherStep(rows, i, Misdecoded, stats0);
      var row := rows[i];
      var materia := SubjectKey(row, Misdecoded);
      if row.nota.Val? {
        grades := grades + [row.nota.v];
        if materia.Some? {
          subjectGrades := Append(subjectGrades, materia.value, row.nota.v);
          stats := Append(stats, materia.value, row.nota.v);
        }
      }
      i := i + 1;
    }
    assert rows[..i] == rows;
  }

  /** One turn of the script's student loop: the student's outcome, and `subject_stats` after their grades. */
  method ScreenOne(s: Student, sheets: Sheets, stats0: map<string, seq<real>>)
    returns (r: Result<Outcome<EnhancedRecord>>, stats: map<string, seq<real>>)
    ensures r == Screen(s, sheets)
    ensures r.Ok? ==> stats == if Coded(s) then SubjectGrades(AcademicRows(s), Misdecoded, stats0) else stats0
  {
    stats := stats0;
    var num := StudentNumber(s.id);
    if num.Err? {
      return Err(num.error), stats;
    }
    if num.value.None? {
      return Ok(NotACode), stats;
    }
    var rows := AcademicRows(s);
    if rows == [] {
      return Ok(NoAcademic), stats;
    }
    var grades, subjectGrades;
    grades, subjectGrades, stats := GatherGradesAndStats(rows, stats0);
    if grades == [] {
      return Ok(NoAcademic), stats;
    }
    if NivelEducativo(s.grado) == UnknownNivel {
      return Ok(UnknownGrade), stats;
    }
    var rec := RecordOf(s, sheets, num.value.value, grades, subjectGrades);
    if rec.Err? {
      return Err(rec.error), stats;
    }
    r := Ok(Kept(rec.value));
  }

  /** The script's student loop. */
  method BuildEnhancedDataset(students: seq<Student>, sheets: Sheets) returns (r: Result<State>)
    ensures r == DatasetOf(students, sheets)
  {
    var st := State(Tally([], 0, 0), map[]);
    var i := 0;
    while i < |students|
      invariant 0 <= i <= |students|
      invariant DatasetOf(students[..i], sheets) == Ok(st)
    {
      DatasetStep(students, sheets, i);
      var outcome, stats := ScreenOne(students[i], sheets, st.stats);
      if outcome.Err? {
        DatasetStops(students, sheets, i + 1);
        return Err(outcome.error);
      }
      var tally := TallyOutcome(st.tally, outcome.value);
      st := State(tally, stats);
      i := i + 1;
    }
    assert students[..i] == students;
    r := Ok(st);
  }

  // ----- what the dataset holds -----

  /** The rows of the coded students, one student after the other. */
  function CodedRows(students: seq<Student>): seq<GradeRecord> {
    if students == [] then []
    else
      var s := students[|students| - 1];
      CodedRows(students[..|students| - 1]) + if Coded(s) then AcademicRows(s) else []
  }

  /** The number of coded students. */
  function CodedCount(students: seq<Student>): nat {
    if students == [] then 0
    else CodedCount(students[..|students| - 1]) + if Coded(students[|students| - 1]) then 1 else 0
  }

  /**
   * `subject_stats` holds the grades of every coded student, skipped or not,
   * filed in order, and every coded student is either a record or counted as
   * skipped.
   */
  lemma {:induction false} DatasetAccounts(students: seq<Student>, sheets: Sheets)
    requires DatasetOf(students, sheets).Ok?
    ensures DatasetOf(students, sheets).value.stats == SubjectGrades(CodedRows(students), Misdecoded, map[])
    ensures var t := DatasetOf(students, sheets).value.tally;
      |t.records| + t.noAcademic + t.unknownGrade == CodedCount(students)
  {
    if students != [] {
      var init := students[..|students| - 1];
      var s := students[|students| - 1];
      DatasetAccounts(init, sheets);
      var rows := if Coded(s) then AcademicRows(s) else [];
      SubjectGradesAppend(CodedRows(init), rows, Misdecoded, map[]);
      if !Coded(s) {
        assert rows == [];
      }
    }
  }

  /** Every record comes from a kept student of the input. */
  lemma {:induction false} RecordsComeFromKeptStudents(students: seq<Student>, sheets: Sheets)
    requires DatasetOf(students, sheets).Ok?
    ensures forall rec :: rec in DatasetOf(students, sheets).value.tally.records ==>
      exists s :: s in students && Screen(s, sheets) == Ok(Kept(rec))
  {
    if students != [] {
      var init := students[..|students| - 1];
      var s := students[|students| - 1];
      RecordsComeFromKeptStudents(init, sheets);
      var before := DatasetOf(init, sheets).value.tally.records;
      forall rec | rec in DatasetOf(students, sheets).value.tally.records
        ensures exists s :: s in students && Screen(s, sheets) == Ok(Kept(rec))
      {
        if rec in before {
          var t :| t in init && Screen(t, sheets) == Ok(Kept(rec));
          assert t in students;
        } else {
          assert s in students && Screen(s, sheets) == Ok(Kept(rec));
        }
      }
    }
  }

  /** Every record is labelled at risk exactly when its mean grade is at most 7.5. */
  lemma RecordsLabelledByMean(students: seq<Student>, sheets: Sheets)
    requires DatasetOf(students, sheets).Ok?
    ensures forall rec :: rec in DatasetOf(students, sheets).value.tally.records ==> (rec.atRisk <==> rec.avgGrade <= 7.5)
  {
    RecordsComeFromKeptStudents(students, sheets);
    forall rec | rec in DatasetOf(students, sheets).value.tally.records
      ensures rec.atRisk <==> rec.avgGrade <= 7.5
    {
      var s :| s in students && Screen(s, sheets) == Ok(Kept(rec));
    }
  }
}
