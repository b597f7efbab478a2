/**
 * The mock data the backend serves when Supabase is not configured: three
 * fixture students with their nested rows, a listing that slices them, and a
 * lookup by id. The risk-prediction rows of the fixtures are not part of
 * this model (the `Student` record does not carry them).
 */
module Mocks {
  import opened Py
  import opened Text
  import opened Records
  import Ingest
  import Fase2 = ImportFase2

  function Socio(laptop: bool, internet: bool, computadora: bool, lectura: bool,
                 nivel: string, salud: string, tecnologia: string, apoyo: string): SocioRecord {
    SocioRecord(Val(laptop), Val(internet), Val(computadora), Val(lectura), Val(nivel), Val(salud), Val(tecnologia), Val(apoyo))
  }

  function Grade(materia: string, nota: real, promedioCurso: real): GradeRecord {
    GradeRecord(Val(materia), Val(nota), Val(promedioCurso))
  }

  function Absences(total: int, justificadas: int, injustificadas: int): AttendanceRecord {
    AttendanceRecord(Val(total), Val(justificadas), Val(injustificadas))
  }

  function Fixture(id: string, nombre: string, grado: string, edad: int, genero: string, quintil: int,
                   grupo: string, promedio: real, socio: SocioRecord, grades: seq<GradeRecord>,
                   absences: AttendanceRecord): Student {
    Student(Val(id), Val(nombre), Val(grado), Val(edad), Val(genero), Val(quintil), Val(grupo), Val(promedio),
            Val([absences]), Val(grades), Val([socio]))
  }

  /** `MOCK_STUDENTS`. */
  const MockStudents: seq<Student> := [
    Fixture("EST001", "Juan Pérez", "10mo EGB", 15, "Masculino", 2, "Bajo", 8.5,
      Socio(false, true, false, false, "Básica", "Básica", "Bajo", "Medio"),
      [Grade("Matemáticas", 6.8, 8.5), Grade("Física", 7.2, 8.3), Grade("Lengua", 8.9, 8.7),
       Grade("Estudios Sociales", 8.4, 8.6), Grade("Biología", 7.5, 8.4)],
      Absences(5, 2, 3)),
    Fixture("EST002", "María González", "9no EGB", 14, "Femenino", 4, "Alto", 9.2,
      Socio(true, true, true, true, "Superior", "Completa", "Alto", "Alto"),
      [Grade("Matemáticas", 9.5, 8.5), Grade("Física", 9.0, 8.3), Grade("Lengua", 9.3, 8.7),
       Grade("Estudios Sociales", 9.1, 8.6), Grade("Biología", 8.9, 8.4)],
      Absences(1, 1, 0)),
    Fixture("EST003", "Carlos Ramírez", "8vo EGB", 13, "Masculino", 3, "Medio", 8.7,
      Socio(true, true, false, true, "Bachillerato", "Básica", "Medio", "Medio"),
      [Grade("Matemáticas", 8.4, 8.5), Grade("Física", 8.6, 8.3), Grade("Lengua", 8.9, 8.7),
       Grade("Estudios Sociales", 8.5, 8.6), Grade("Biología", 9.0, 8.4)],
      Absences(2, 2, 0))
  ]

  /**
   * Python's `xs[:limit]`: the first `limit` elements, or all of them; a
   * negative limit counts from the end, leaving all but the last `-limit`.
   */
  function SliceTo<T>(xs: seq<T>, limit: int): (r: seq<T>)
    ensures |r| <= |xs| && r == xs[..|r|]
    ensures limit >= 0 ==> |r| == if limit <= |xs| then limit else |xs|
    ensures limit < 0 ==> |r| == if |xs| + limit >= 0 then |xs| + limit else 0
  {
    var end := if limit >= 0 then limit else |xs| + limit;
    var n := if end < 0 then 0 else if end > |xs| then |xs| else end;
    xs[..n]
  }

  /** `get_mock_students(limit=100)`. */
  function GetMockStudents(limit: int): (r: seq<Student>)
    ensures limit >= 0 ==> r == MockStudents[..if limit <= 3 then limit else 3]
    ensures limit < 0 ==> r == MockStudents[..if limit >= -3 then 3 + limit else 0]
  {
    SliceTo(MockStudents, limit)
  }

  /** The default limit lists every fixture. */
  lemma DefaultLimitListsAll()
    ensures GetMockStudents(100) == MockStudents
  {
  }

  /** The position of the first student of `students` whose id equals `id`. */
  function FindIndex(students: seq<Student>, id: string): (r: Option<nat>)
    ensures r.Some? ==> r.value < |students| && students[r.value].id == Val(id)
    ensures r.Some? ==> forall j :: 0 <= j < r.value ==> students[j].id != Val(id)
    ensures r.None? <==> forall i :: 0 <= i < |students| ==> students[i].id != Val(id)
  {
    if students == [] then None
    else if students[0].id == Val(id) then Some(0)
    else match FindIndex(students[1..], id)
      case None => None
      case Some(k) => Some(k + 1)
  }

  /** `get_mock_student_by_id`: the fixture with that id, or None. */
  function GetMockStudentById(id: string): (r: Option<Student>)
    ensures r.Some? ==> r.value in MockStudents && r.value.id == Val(id)
    ensures r.None? <==> forall i :: 0 <= i < |MockStudents| ==> MockStudents[i].id != Val(id)
  {
    match FindIndex(MockStudents, id)
    case None => None
    case Some(i) => Some(MockStudents[i])
  }

  /** The fixture ids have the `EST` + three digits shape of the imported students. */
  predicate IsStudentCode(s: string) {
    |s| == 6 && s[..3] == "EST" && AllDigits(s[3..])
  }

  /** The fixtures' ids, in order. */
  lemma FixtureIds()
    ensures |MockStudents| == 3
    ensures MockStudents[0].id == Val("EST001") && MockStudents[1].id == Val("EST002") && MockStudents[2].id == Val("EST003")
  {
  }

  /** The fixtures' ids are distinct and have the `EST` + three digits shape. */
  lemma FixtureIdsAreCodes()
    ensures forall i :: 0 <= i < |MockStudents| ==> MockStudents[i].id.Val? && IsStudentCode(MockStudents[i].id.v)
    ensures forall i, j :: 0 <= i < j < |MockStudents| ==> MockStudents[i].id != MockStudents[j].id
  {
    FixtureIds();
    assert IsStudentCode("EST001") && IsStudentCode("EST002") && IsStudentCode("EST003");
  }

  /** Each fixture's id is the code the importers give student number 1, 2 and 3. */
  lemma FixtureIdsAreImportedCodes()
    ensures forall i :: 0 <= i < |MockStudents| ==> MockStudents[i].id == Val(Ingest.StudentCode(Int(i + 1)))
  {
    FixtureIds();
    forall i | 0 <= i < |MockStudents|
      ensures MockStudents[i].id == Val(Ingest.StudentCode(Int(i + 1)))
    {
      CodeOf(i + 1);
      var d := DigitChar(i + 1);
      assert d == ['1', '2', '3'][i];
      assert "EST00" + [d] == ["EST001", "EST002", "EST003"][i];
    }
  }

  /** The code of a one-digit student number. */
  lemma CodeOf(n: nat)
    requires 1 <= n <= 9
    ensures Ingest.StudentCode(Int(n)) == "EST00" + [DigitChar(n)]
  {
    assert IntToString(n) == [DigitChar(n)];
    assert Zeros(2) == "00";
  }

  /** Every fixture's group is the one the import derives from its quintil. */
  lemma FixtureGroupsAgreeWithQuintil()
    ensures forall s :: s in MockStudents ==>
      s.quintil.Val? && s.quintilAgrupado == Val(Fase2.GroupOf(s.quintil.v))
  {
  }

  /** Looking up a fixture's id finds that fixture. */
  lemma LookupFindsEachFixture(i: nat)
    requires i < |MockStudents|
    ensures GetMockStudentById(MockStudents[i].id.v) == Some(MockStudents[i])
  {
    FixtureIdsAreCodes();
  }
}
