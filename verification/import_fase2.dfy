/**
 * The Phase-2 CSV import: one `students`, one `socioeconomic_data` and one
 * `attendance` record per CSV row, one `academic_performance` record per
 * present subject grade, and the batched inserts with row-by-row retry.
 * Reading the CSV, the confirmation prompt and the database calls are not
 * part of this model; `float()` on text is the parameter `parseFloat`.
 */
module ImportFase2 {
  import opened Py
  import opened Text
  import opened Ingest
  import Records
  import RC = RiskCalculator

  // ----- _clasificar_quintil -----

  /** `_clasificar_quintil`: NaN has no group; otherwise `int(q)` is grouped, 5 and above being "Acomodado". */
  function ClasificarQuintil(c: Cell): (r: Result<Option<string>>)
    ensures c.NaN? ==> r == Ok(None)
    ensures !c.NaN? ==> (r.Ok? <==> IntOfCell(c).Ok?)
    ensures !c.NaN? && r.Ok? ==>
      var q := IntOfCell(c).value;
      r.value.Some?
      && (r.value.value == "Bajo" <==> q <= 2)
      && (r.value.value == "Medio" <==> q == 3)
      && (r.value.value == "Alto" <==> q == 4)
      && (r.value.value == "Acomodado" <==> q >= 5)
  {
    if c.NaN? then Ok(None)
    else match IntOfCell(c)
      case Err(e) => Err(e)
      case Ok(q) => Ok(Some(GroupOf(q)))
  }

  function GroupOf(q: int): string {
    if q <= 2 then "Bajo" else if q == 3 then "Medio" else if q == 4 then "Alto" else "Acomodado"
  }

  /**
   * The group the import stores never changes the calculator's quintil
   * score: a student imported with quintil `q` (1 to 5) and its group scores
   * as it would with the quintil alone.
   */
  lemma ImportedGroupAgreesWithQuintil(s: Records.Student, q: int)
    requires 1 <= q <= 5
    requires s.quintil == Val(q) && s.quintilAgrupado == Val(GroupOf(q))
    ensures RC.QuintilScore(s) == RC.QuintilScore(s.(quintilAgrupado := Absent))
  {
    assert RC.QuintilGroup(s) == Lower(GroupOf(q));
    assert RC.QuintilGroup(s.(quintilAgrupado := Absent)) == "";
    assert !Contains("", "bajo") && !Contains("", "medio");
    GroupWords(q);
  }

  /** The stored group mentions "bajo" exactly for quintiles 1-2 and "medio" exactly for quintil 3. */
  lemma GroupWords(q: int)
    requires 1 <= q <= 5
    ensures Contains(Lower(GroupOf(q)), "bajo") <==> q <= 2
    ensures Contains(Lower(GroupOf(q)), "medio") <==> q == 3
  {
    if q <= 2 {
      BajoWords();
    } else if q == 3 {
      MedioWords();
    } else if q == 4 {
      AltoWords();
    } else {
      AcomodadoWords();
    }
  }

  lemma BajoWords()
    ensures Contains(Lower("Bajo"), "bajo") && !Contains(Lower("Bajo"), "medio")
  {
    LoweredWords("Bajo", "bajo");
    assert OccursAt("bajo", "bajo", 0);
  }

  lemma MedioWords()
    ensures !Contains(Lower("Medio"), "bajo") && Contains(Lower("Medio"), "medio")
  {
    LoweredWords("Medio", "medio");
    assert OccursAt("medio", "medio", 0);
  }

  lemma AltoWords()
    ensures !Contains(Lower("Alto"), "bajo") && !Contains(Lower("Alto"), "medio")
  {
    LoweredWords("Alto", "alto");
  }

  lemma AcomodadoWords()
    ensures !Contains(Lower("Acomodado"), "bajo") && !Contains(Lower("Acomodado"), "medio")
  {
    var w, l := "Acomodado", "acomodado";
    assert w[1..] == l[1..] && IsLowered(l[1..]);
    CapitalizedLower(w);
    assert Lower(w) == l;
    LacksFirstChar(l, "bajo");
    LacksSomeChar(l, "medio", 1);
  }

  lemma LoweredWords(word: string, lowered: string)
    requires word in ["Bajo", "Medio", "Alto", "Acomodado"]
    requires lowered == [(word[0] as int + 32) as char] + word[1..]
    ensures Lower(word) == lowered
    ensures 'b' !in lowered ==> !Contains(lowered, "bajo")
    ensures 'm' !in lowered ==> !Contains(lowered, "medio")
  {
    CapitalizedLower(word);
    if 'b' !in lowered {
      LacksFirstChar(lowered, "bajo");
    }
    if 'm' !in lowered {
      LacksFirstChar(lowered, "medio");
    }
  }

  /** A capitalised word lowers to its lower-case form. */
  lemma CapitalizedLower(word: string)
    requires |word| > 0 && 'A' <= word[0] <= 'Z' && IsLowered(word[1..])
    ensures Lower(word) == [(word[0] as int + 32) as char] + word[1..]
  {
    LowerOfLowered(word[1..]);
  }

  // ----- _parse_si_no -----

  /** The answers `_parse_si_no` reads as yes. */
  const YesAnswers: seq<string> := ["si", "sí", "yes", "true", "1"]

  /** `_parse_si_no`: NaN is None; otherwise yes iff the stripped, lowered text is an answer in the list. */
  function ParseSiNo(c: Cell): (r: Option<bool>)
    ensures c.NaN? <==> r.None?
    ensures r.Some? ==> (r.value <==> Lower(Strip(CellText(c))) in YesAnswers)
  {
    if c.NaN? then None else Some(Lower(Strip(CellText(c))) in YesAnswers)
  }

  lemma ParseSiNoYes()
    ensures ParseSiNo(Str("Si")) == Some(true)
  {
    StripOfEdgeless("Si");
    assert Lower("Si") == "si";
  }

  lemma ParseSiNoNo()
    ensures ParseSiNo(Str("No")) == Some(false)
  {
    StripOfEdgeless("No");
    assert Lower("No") == "no";
  }

  // ----- the full name -----

  /** `str(row.get(col, '')).strip() if pd.notna(row.get(col)) else ''`. */
  function NamePart(c: Cell): (p: string)
    ensures p == [] || (!IsSpace(p[0]) && !IsSpace(p[|p| - 1]))
  {
    if c.NaN? then "" else Strip(CellText(c))
  }

  /** `f"{nombre} {apellido}".strip()`. */
  function FullName(nombres: Cell, apellidos: Cell): (name: string)
    ensures name == [] || (!IsSpace(name[0]) && !IsSpace(name[|name| - 1]))
  {
    Strip(NamePart(nombres) + " " + NamePart(apellidos))
  }

  /** A missing part leaves the other part alone, with no stray space; two parts are joined by one space. */
  lemma FullNameParts(nombres: Cell, apellidos: Cell)
    ensures nombres.NaN? ==> FullName(nombres, apellidos) == NamePart(apellidos)
    ensures apellidos.NaN? ==> FullName(nombres, apellidos) == NamePart(nombres)
    ensures NamePart(nombres) != [] && NamePart(apellidos) != [] ==>
      FullName(nombres, apellidos) == NamePart(nombres) + " " + NamePart(apellidos)
  {
    var n, a := NamePart(nombres), NamePart(apellidos);
    if nombres.NaN? {
      StripLeadingSpace(a);
    }
    if apellidos.NaN? {
      StripTrailingSpace(n);
    }
    if n != [] && a != [] {
      StripOfEdgeless(n + " " + a);
    }
  }

  lemma StripLeadingSpace(t: string)
    requires t == [] || (!IsSpace(t[0]) && !IsSpace(t[|t| - 1]))
    ensures Strip("" + " " + t) == t
  {
    var s := "" + " " + t;
    assert s[1..] == t;
    assert LStrip(s) == LStrip(t);
    StripOfEdgeless(t);
  }

  lemma StripTrailingSpace(t: string)
    requires t == [] || (!IsSpace(t[0]) && !IsSpace(t[|t| - 1]))
    ensures Strip(t + " " + "") == t
  {
    var s := t + " " + "";
    if t == [] {
      assert s == " " && LStrip(s) == [];
    } else {
      assert LStrip(s) == s;
      assert s[..|s| - 1] == t;
      assert RStrip(s) == RStrip(t);
      StripOfEdgeless(t);
    }
  }

  // ----- the students table -----

  datatype StudentRow = StudentRow(
    id: string, nombre: string, grado: Option<string>, seccion: string, edad: Option<int>,
    genero: Option<string>, quintil: Option<int>, quintilAgrupado: Option<string>, promedioGeneral: Option<real>)

  /** One `students` record; `row['ID']` raises KeyError without an ID column. */
  function StudentOf(row: Row, parseFloat: string -> Option<real>): (r: Result<StudentRow>)
    ensures r.Ok? ==>
      "ID" in row && r.value.id == StudentCode(row["ID"])
      && r.value.nombre == FullName(At(row, "Nombres"), At(row, "Apellidos"))
      && r.value.seccion == "A" && r.value.genero == None
      && (At(row, "Quintil").NaN? <==> r.value.quintilAgrupado.None?)
      && (r.value.quintil.None? <==> r.value.quintilAgrupado.None?)
    ensures r.Ok? <==>
      "ID" in row && IntOr(row, "Edad", None).Ok? && IntOr(row, "Quintil", None).Ok?
      && (!At(row, "Promedio_General").NaN? ==> RealOfCell(row["Promedio_General"], parseFloat).Ok?)
    ensures r.Ok? ==>
      r.value.grado == TextOrNone(row, "Grado")
      && r.value.edad == IntOr(row, "Edad", None).value
      && r.value.quintil == IntOr(row, "Quintil", None).value
      && r.value.quintilAgrupado == ClasificarQuintil(At(row, "Quintil")).value
      && (At(row, "Promedio_General").NaN? <==> r.value.promedioGeneral.None?)
      && (r.value.promedioGeneral.Some? ==>
            r.value.promedioGeneral.value == RealOfCell(row["Promedio_General"], parseFloat).value)
  {
    match Index(row, "ID")
    case Err(e) => Err(e)
    case Ok(id) =>
      match IntOr(row, "Edad", None)
      case Err(e) => Err(e)
      case Ok(edad) =>
        match IntOr(row, "Quintil", None)
        case Err(e) => Err(e)
        case Ok(quintil) =>
          match ClasificarQuintil(At(row, "Quintil"))
          case Err(e) => Err(e)
          case Ok(grupo) =>
            var p := At(row, "Promedio_General");
            var promedio := if p.NaN? then Ok(None) else match RealOfCell(p, parseFloat) {
              case Ok(x) => Ok(Some(x))
              case Err(e) => Err(e)
            };
            match promedio
            case Err(e) => Err(e)
            case Ok(pg) =>
              Ok(StudentRow(StudentCode(id), FullName(At(row, "Nombres"), At(row, "Apellidos")),
                            TextOrNone(row, "Grado"), "A", edad, None, quintil, grupo, pg))
  }

  function StudentFn(parseFloat: string -> Option<real>): Row -> Result<StudentRow> {
    row => StudentOf(row, parseFloat)
  }

  /** `prepare_students_table`: one record per row, in order. */
  method PrepareStudentsTable(rows: seq<Row>, parseFloat: string -> Option<real>) returns (r: Result<seq<StudentRow>>)
    ensures r == Collect(rows, StudentFn(parseFloat))
    ensures r.Ok? ==> |r.value| == |rows| && forall i :: 0 <= i < |rows| ==> StudentOf(rows[i], parseFloat) == Ok(r.value[i])
  {
    r := CollectRows(rows, StudentFn(parseFloat));
  }

  // ----- the socioeconomic table -----

  datatype SocioRow = SocioRow(
    studentId: string, nivelInstruccionRep: Option<string>, edadRepresentante: Option<int>,
    relacion: Option<string>, estadoCivil: Option<string>,
    laptop: Option<bool>, internet: Option<bool>, computadora: Option<bool>, lecturaLibros: Option<bool>,
    numeroHermanos: int, tipoVivienda: Option<string>)

  /** One `socioeconomic_data` record; the computed indices are left NULL. */
  function SocioOf(row: Row): (r: Result<SocioRow>)
    ensures r.Ok? ==>
      "ID" in row && r.value.studentId == StudentCode(row["ID"])
      && r.value.laptop == ParseSiNo(At(row, "Laptop"))
      && r.value.internet == ParseSiNo(At(row, "Internet"))
      && r.value.computadora == ParseSiNo(At(row, "Computadora"))
      && r.value.lecturaLibros == ParseSiNo(At(row, "Lectura_libros"))
      && r.value.numeroHermanos == 0
  {
    match Index(row, "ID")
    case Err(e) => Err(e)
    case Ok(id) =>
      match IntOr(row, "Edad_rep", None)
      case Err(e) => Err(e)
      case Ok(edadRep) =>
        Ok(SocioRow(StudentCode(id), TextOrNone(row, "Nivel Instruccion"), edadRep,
                    TextOrNone(row, "Relacion"), TextOrNone(row, "Estado civil"),
                    ParseSiNo(At(row, "Laptop")), ParseSiNo(At(row, "Internet")),
                    ParseSiNo(At(row, "Computadora")), ParseSiNo(At(row, "Lectura_libros")),
                    0, TextOrNone(row, "Tipo vivienda")))
  }

  /** `prepare_socioeconomic_table`: one record per row, in order. */
  method PrepareSocioeconomicTable(rows: seq<Row>) returns (r: Result<seq<SocioRow>>)
    ensures r == Collect(rows, SocioOf)
    ensures r.Ok? ==> |r.value| == |rows| && forall i :: 0 <= i < |rows| ==> SocioOf(rows[i]) == Ok(r.value[i])
  {
    r := CollectRows(rows, SocioOf);
  }

  // ----- the attendance table -----

  datatype AttendanceRow = AttendanceRow(
    studentId: string, mes: string, year: int,
    totalInasistencias: int, faltasJustificadas: int, faltasInjustificadas: int, atrasos: int)

  /** `int(row[col]) if pd.notna(row.get(col)) else 0`. */
  function CountOrZero(row: Row, col: string): (r: Result<int>)
    ensures At(row, col).NaN? ==> r == Ok(0)
    ensures !At(row, col).NaN? ==> r == IntOfCell(row[col])
  {
    var c := At(row, col);
    if c.NaN? then Ok(0) else IntOfCell(c)
  }

  /** One October `attendance` record; a missing count is 0. */
  function AttendanceOf(row: Row): (r: Result<AttendanceRow>)
    ensures r.Ok? ==>
      "ID" in row && r.value.studentId == StudentCode(row["ID"])
      && r.value.mes == "Octubre" && r.value.year == 2025
      && (At(row, "Total_Inasistencias_Oct").NaN? ==> r.value.totalInasistencias == 0)
      && (At(row, "Faltas_Justificadas_Oct").NaN? ==> r.value.faltasJustificadas == 0)
      && (At(row, "Faltas_Injustificadas_Oct").NaN? ==> r.value.faltasInjustificadas == 0)
      && (At(row, "Total_Atrasos_Oct").NaN? ==> r.value.atrasos == 0)
  {
    match Index(row, "ID")
    case Err(e) => Err(e)
    case Ok(id) =>
      match CountOrZero(row, "Total_Inasistencias_Oct")
      case Err(e) => Err(e)
      case Ok(total) =>
        match CountOrZero(row, "Faltas_Justificadas_Oct")
        case Err(e) => Err(e)
        case Ok(justified) =>
          match CountOrZero(row, "Faltas_Injustificadas_Oct")
          case Err(e) => Err(e)
          case Ok(unjustified) =>
            match CountOrZero(row, "Total_Atrasos_Oct")
            case Err(e) => Err(e)
            case Ok(late) => Ok(AttendanceRow(StudentCode(id), "Octubre", 2025, total, justified, unjustified, late))
  }

  /** `prepare_attendance_table`: one record per row, in order. */
  method PrepareAttendanceTable(rows: seq<Row>) returns (r: Result<seq<AttendanceRow>>)
    ensures r == Collect(rows, AttendanceOf)
    ensures r.Ok? ==> |r.value| == |rows| && forall i :: 0 <= i < |rows| ==> AttendanceOf(rows[i]) == Ok(r.value[i])
  {
    r := CollectRows(rows, AttendanceOf);
  }

  // ----- the academic_performance table -----

  /** The columns ending in "_Oct" that are attendance counts, not subjects. */
  const AttendanceColumns: seq<string> := [
    "Faltas_Justificadas_Oct", "Faltas_Injustificadas_Oct",
    "Atrasos_Injustificados_Oct", "Atrasos_Justificados_Oct",
    "Total_Faltas_Oct", "Total_Atrasos_Oct", "Total_Inasistencias_Oct"]

  predicate IsSubjectColumn(col: string) {
    EndsWith(col, "_Oct") && col !in AttendanceColumns
  }

  /** `materia_columns`: the subject columns, in column order. */
  function SubjectColumns(columns: seq<string>): (subjects: seq<string>)
    ensures forall c :: c in subjects <==> c in columns && IsSubjectColumn(c)
  {
    if columns == [] then []
    else
      var rest := SubjectColumns(columns[..|columns| - 1]);
      var col := columns[|columns| - 1];
      assert columns == columns[..|columns| - 1] + [col];
      if IsSubjectColumn(col) then rest + [col] else rest
  }

  /** `col.replace('_Oct', '').replace('_', ' ').strip()`. */
  function SubjectName(col: string): (name: string)
    ensures '_' !in name
    ensures name == [] || (!IsSpace(name[0]) && !IsSpace(name[|name| - 1]))
  {
    var spaced := ReplaceAll(ReplaceAll(col, "_Oct", ""), "_", " ");
    ReplaceAllRemovesChar(ReplaceAll(col, "_Oct", ""), '_', " ");
    ContainsChars(spaced, Strip(spaced));
    Strip(spaced)
  }

  datatype GradeRow = GradeRow(studentId: string, materia: string, nota: real, year: int, periodo: string)

  /** The grade records of one row, over the subject columns in order; missing grades give none. */
  function GradesOf(row: Row, code: string, subjects: seq<string>, parseFloat: string -> Option<real>): Result<seq<GradeRow>> {
    if subjects == [] then Ok([])
    else
      match GradesOf(row, code, subjects[..|subjects| - 1], parseFloat)
      case Err(e) => Err(e)
      case Ok(done) =>
        var col := subjects[|subjects| - 1];
        var nota := At(row, col);
        if nota.NaN? then Ok(done)
        else match RealOfCell(nota, parseFloat)
          case Err(e) => Err(e)
          case Ok(x) => Ok(done + [GradeRow(code, SubjectName(col), x, 2025, "Q2")])
  }

  function PresentGrades(row: Row, subjects: seq<string>): nat {
    if subjects == [] then 0
    else PresentGrades(row, subjects[..|subjects| - 1]) + if At(row, subjects[|subjects| - 1]).NaN? then 0 else 1
  }

  /** One record per present grade, each for this student, period Q2 of 2025. */
  lemma {:induction false} GradesOfCount(row: Row, code: string, subjects: seq<string>, parseFloat: string -> Option<real>)
    requires GradesOf(row, code, subjects, parseFloat).Ok?
    ensures |GradesOf(row, code, subjects, parseFloat).value| == PresentGrades(row, subjects)
    ensures forall g :: g in GradesOf(row, code, subjects, parseFloat).value ==>
      g.studentId == code && g.year == 2025 && g.periodo == "Q2" && '_' !in g.materia
  {
    if subjects != [] {
      GradesOfCount(row, code, subjects[..|subjects| - 1], parseFloat);
    }
  }

  /** The academic records of all rows: a row's ID is read before its grades. */
  function AcademicOf(rows: seq<Row>, subjects: seq<string>, parseFloat: string -> Option<real>): Result<seq<GradeRow>> {
    if rows == [] then Ok([])
    else
      match AcademicOf(rows[..|rows| - 1], subjects, parseFloat)
      case Err(e) => Err(e)
      case Ok(done) =>
        var row := rows[|rows| - 1];
        match Index(row, "ID")
        case Err(e) => Err(e)
        case Ok(id) =>
          match GradesOf(row, StudentCode(id), subjects, parseFloat)
          case Err(e) => Err(e)
          case Ok(gs) => Ok(done + gs)
  }

  /** `prepare_academic_performance_table`. */
  method PrepareAcademicPerformanceTable(rows: seq<Row>, columns: seq<string>, parseFloat: string -> Option<real>)
    returns (r: Result<seq<GradeRow>>)
    ensures r == AcademicOf(rows, SubjectColumns(columns), parseFloat)
  {
    var subjects := SubjectColumns(columns);
    var academic: seq<GradeRow> := [];
    var i := 0;
    while i < |rows|
      invariant 0 <= i <= |rows|
      invariant AcademicOf(rows[..i], subjects, parseFloat) == Ok(academic)
    {
      assert rows[..i + 1][..i] == rows[..i];
      if "ID" !in rows[i] {
        r := Err("KeyError");
        AcademicStops(rows, subjects, parseFloat, i);
        return;
      }
      var code := StudentCode(rows[i]["ID"]);
      var grades := RowGrades(rows[i], code, subjects, parseFloat);
      if grades.Err? {
        r := Err(grades.error);
        AcademicStops(rows, subjects, parseFloat, i);
        return;
      }
      academic := academic + grades.value;
      i := i + 1;
    }
    assert rows[..i] == rows;
    r := Ok(academic);
  }

  /** The inner loop over the subject columns of one row. */
  method RowGrades(row: Row, code: string, subjects: seq<string>, parseFloat: string -> Option<real>)
    returns (r: Result<seq<GradeRow>>)
    ensures r == GradesOf(row, code, subjects, parseFloat)
  {
    var grades: seq<GradeRow> := [];
    var j := 0;
    while j < |subjects|
      invariant 0 <= j <= |subjects|
      invariant GradesOf(row, code, subjects[..j], parseFloat) == Ok(grades)
    {
      assert subjects[..j + 1][..j] == subjects[..j];
      var col := subjects[j];
      var nota := At(row, col);
      if !nota.NaN? {
        var x := RealOfCell(nota, parseFloat);
        if x.Err? {
          GradesStop(row, code, subjects, parseFloat, j);
          return Err(x.error);
        }
        grades := grades + [GradeRow(code, SubjectName(col), x.value, 2025, "Q2")];
      }
      j := j + 1;
    }
    assert subjects[..j] == subjects;
    r := Ok(grades);
  }

  lemma {:induction false} GradesStop(row: Row, code: string, subjects: seq<string>, parseFloat: string -> Option<real>, j: nat)
    requires j < |subjects| && GradesOf(row, code, subjects[..j], parseFloat).Ok?
    requires !At(row, subjects[j]).NaN? && RealOfCell(At(row, subjects[j]), parseFloat).Err?
    ensures GradesOf(row, code, subjects, parseFloat) == Err(RealOfCell(At(row, subjects[j]), parseFloat).error)
    decreases |subjects| - j
  {
    if j + 1 == |subjects| {
      assert subjects[..|subjects| - 1] == subjects[..j];
    } else {
      var init := subjects[..|subjects| - 1];
      assert init[..j] == subjects[..j] && init[j] == subjects[j];
      GradesStop(row, code, init, parseFloat, j);
    }
  }

  lemma {:induction false} AcademicStops(rows: seq<Row>, subjects: seq<string>, parseFloat: string -> Option<real>, i: nat)
    requires i < |rows| && AcademicOf(rows[..i], subjects, parseFloat).Ok?
    requires AcademicRowError(rows[i], subjects, parseFloat).Some?
    ensures AcademicOf(rows, subjects, parseFloat) == Err(AcademicRowError(rows[i], subjects, parseFloat).value)
    decreases |rows| - i
  {
    if i + 1 == |rows| {
      assert rows[..|rows| - 1] == rows[..i];
    } else {
      var init := rows[..|rows| - 1];
      assert init[..i] == rows[..i] && init[i] == rows[i];
      AcademicStops(init, subjects, parseFloat, i);
    }
  }

  /** The error a row raises while its grade records are built, if any. */
  function AcademicRowError(row: Row, subjects: seq<string>, parseFloat: string -> Option<real>): Option<string> {
    match Index(row, "ID")
    case Err(e) => Some(e)
    case Ok(id) =>
      match GradesOf(row, StudentCode(id), subjects, parseFloat)
      case Err(e) => Some(e)
      case Ok(_) => None
  }

  /** Every academic record has a present grade behind it: the table holds exactly the present grades of all rows. */
  lemma {:induction false} AcademicCount(rows: seq<Row>, subjects: seq<string>, parseFloat: string -> Option<real>)
    requires AcademicOf(rows, subjects, parseFloat).Ok?
    ensures |AcademicOf(rows, subjects, parseFloat).value| == TotalPresent(rows, subjects)
  {
    if rows != [] {
      var row := rows[|rows| - 1];
      AcademicCount(rows[..|rows| - 1], subjects, parseFloat);
      GradesOfCount(row, StudentCode(row["ID"]), subjects, parseFloat);
    }
  }

  function TotalPresent(rows: seq<Row>, subjects: seq<string>): nat {
    if rows == [] then 0 else TotalPresent(rows[..|rows| - 1], subjects) + PresentGrades(rows[|rows| - 1], subjects)
  }
}
