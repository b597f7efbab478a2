/**
 * The Excel import: the five sheets merged by student ID (not part of this
 * model) give one row per student, from which one `students` and one
 * `socioeconomic_data` record are built; the tables are inserted in batches,
 * a failed batch being logged and skipped (`Ingest.InsertSkipping`).
 */
module ImportExcel {
  import opened Py
  import opened Text
  import opened Ingest
  import Fase2 = ImportFase2

  /** `row.get(col, default)`: the default only when the column is missing (a NaN cell stays NaN). */
  function GetOr(row: Row, col: string, default: Cell): (c: Cell)
    ensures col in row ==> c == row[col]
    ensures col !in row ==> c == default
  {
    if col in row then row[col] else default
  }

  // ----- the students table -----

  datatype StudentRow = StudentRow(
    id: string, nombre: Cell, grado: Cell, seccion: Cell, edad: Option<int>, genero: Cell,
    quintil: Option<int>, quintilAgrupado: Cell, promedioGeneral: Option<real>)

  /** One `students` record of `prepare_students_table`. */
  function StudentOf(row: Row, parseFloat: string -> Option<real>): (r: Result<StudentRow>)
    ensures r.Ok? ==>
      "ID" in row && r.value.id == StudentCode(row["ID"])
      && r.value.seccion == GetOr(row, "Seccion", Str("A"))
      && r.value.quintilAgrupado == GetOr(row, "Quintil_ML", Str("Medio"))
      && (At(row, "Edad").NaN? ==> r.value.edad.None?)
      && (At(row, "Quintil").NaN? ==> r.value.quintil.None?)
      && (At(row, "Promedio_General").NaN? <==> r.value.promedioGeneral.None?)
  {
    match Index(row, "ID")
    case Err(e) => Err(e)
    case Ok(id) =>
      match IntOr(row, "Edad", None)
      case Err(e) => Err(e)
      case Ok(edad) =>
        match IntOr(row, "Quintil", None)
        case Err(e) => Err(e)
        case Ok(quintil) =>
          var p := At(row, "Promedio_General");
          var promedio := if p.NaN? then Ok(None) else match RealOfCell(p, parseFloat) {
            case Ok(x) => Ok(Some(x))
            case Err(e) => Err(e)
          };
          match promedio
          case Err(e) => Err(e)
          case Ok(pg) =>
            Ok(StudentRow(StudentCode(id), GetOr(row, "nombres", Str("")), GetOr(row, "Grado", Str("")),
                          GetOr(row, "Seccion", Str("A")), edad, GetOr(row, "genero", Str("")),
                          quintil, GetOr(row, "Quintil_ML", Str("Medio")), pg))
  }

  function StudentFn(parseFloat: string -> Option<real>): Row -> Result<StudentRow> {
    row => StudentOf(row, parseFloat)
  }

  /** `prepare_students_table`: one record per merged row, in order. */
  method PrepareStudentsTable(rows: seq<Row>, parseFloat: string -> Option<real>) returns (r: Result<seq<StudentRow>>)
    ensures r == Collect(rows, StudentFn(parseFloat))
    ensures r.Ok? ==> |r.value| == |rows| && forall i :: 0 <= i < |rows| ==> StudentOf(rows[i], parseFloat) == Ok(r.value[i])
  {
    r := CollectRows(rows, StudentFn(parseFloat));
  }

  // ----- the socioeconomic table -----

  datatype SocioRow = SocioRow(
    studentId: string, nivelInstruccionRep: Cell, edadRepresentante: Option<int>,
    relacion: Cell, estadoCivil: Cell,
    laptop: bool, internet: bool, computadora: bool, lecturaLibros: bool,
    numeroHermanos: int, tipoVivienda: Cell,
    indiceCoberturaSalud: Cell, indiceAccesoTecnologico: Cell, indiceApoyoFamiliar: Cell,
    indiceAccesibilidadGeografica: Cell)

  /** `row.get(col) == "Si"`: only the exact text counts as yes. */
  predicate ExactSi(row: Row, col: string) {
    At(row, col) == Str("Si")
  }

  /** One `socioeconomic_data` record of `prepare_socioeconomic_table`. */
  function SocioOf(row: Row): (r: Result<SocioRow>)
    ensures r.Ok? ==>
      "ID" in row && r.value.studentId == StudentCode(row["ID"])
      && (r.value.laptop <==> At(row, "Laptop") == Str("Si"))
      && (r.value.internet <==> At(row, "Internet") == Str("Si"))
      && (r.value.computadora <==> At(row, "Computadora") == Str("Si"))
      && (r.value.lecturaLibros <==> At(row, "Lectura_libros") == Str("Si"))
      && (At(row, "Numero_Hermanos").NaN? ==> r.value.numeroHermanos == 0)
  {
    match Index(row, "ID")
    case Err(e) => Err(e)
    case Ok(id) =>
      match IntOr(row, "Edad_representante", None)
      case Err(e) => Err(e)
      case Ok(edadRep) =>
        match IntOr(row, "Numero_Hermanos", Some(0))
        case Err(e) => Err(e)
        case Ok(hermanos) =>
          Ok(SocioRow(StudentCode(id), GetOr(row, "Nivel Instruccion", Str("")), edadRep,
                      GetOr(row, "Relacion", Str("")), GetOr(row, "Estado civil", Str("")),
                      ExactSi(row, "Laptop"), ExactSi(row, "Internet"),
                      ExactSi(row, "Computadora"), ExactSi(row, "Lectura_libros"),
                      hermanos.value, GetOr(row, "Tipo vivienda", Str("")),
                      GetOr(row, "Indice_Cobertura_Salud", Str("")), GetOr(row, "Indice_Acceso_Tecnologico", Str("")),
                      GetOr(row, "Indice_Apoyo_Familiar", Str("")), GetOr(row, "Indice_Accesibilidad_Geografica", Str(""))))
  }

  /** `prepare_socioeconomic_table`: one record per merged row, in order. */
  method PrepareSocioeconomicTable(rows: seq<Row>) returns (r: Result<seq<SocioRow>>)
    ensures r == Collect(rows, SocioOf)
    ensures r.Ok? ==> |r.value| == |rows| && forall i :: 0 <= i < |rows| ==> SocioOf(rows[i]) == Ok(r.value[i])
  {
    r := CollectRows(rows, SocioOf);
  }

  /**
   * The Excel import reads yes more narrowly than the Phase-2 import: every
   * exact "Si" is yes for both, but "SI" or " si" is yes only for the
   * Phase-2 parser.
   */
  lemma ExcelYesIsNarrower(c: Cell)
    ensures c == Str("Si") ==> Fase2.ParseSiNo(c) == Some(true)
    ensures Fase2.ParseSiNo(Str("SI")) == Some(true) && Str("SI") != Str("Si")
  {
    Fase2.ParseSiNoYes();
    ShoutedSiIsYes();
  }

  lemma ShoutedSiIsYes()
    ensures Fase2.ParseSiNo(Str("SI")) == Some(true) && Str("SI") != Str("Si")
  {
    StripOfEdgeless("SI");
    var l := Lower("SI");
    assert l[0] == 's' && l[1] == 'i';
    assert l == "si";
    assert "SI"[1] != "Si"[1];
  }
}
