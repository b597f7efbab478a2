/**
 * The rows the backend reads from Supabase: a student with its nested
 * attendance, academic-performance and socioeconomic rows. Every column is a
 * `Field`, because the code reads them with `.get` and the database may hold
 * NULL in any of them.
 */
module Records {
  import opened Py

  /** One row of `attendance`. */
  datatype AttendanceRecord = AttendanceRecord(
    totalInasistencias: Field<int>,
    faltasJustificadas: Field<int>,
    faltasInjustificadas: Field<int>)

  /** One row of `academic_performance`. */
  datatype GradeRecord = GradeRecord(
    materia: Field<string>,
    nota: Field<real>,
    promedioCurso: Field<real>)

  /** One row of `socioeconomic_data`. */
  datatype SocioRecord = SocioRecord(
    laptop: Field<bool>,
    internet: Field<bool>,
    computadora: Field<bool>,
    lecturaLibros: Field<bool>,
    nivelInstruccionRep: Field<string>,
    indiceCoberturaSalud: Field<string>,
    indiceAccesoTecnologico: Field<string>,
    indiceApoyoFamiliar: Field<string>)

  /** A row of `students` joined with its related rows, as `get_student_by_id` returns it. */
  datatype Student = Student(
    id: Field<string>,
    nombre: Field<string>,
    grado: Field<string>,
    edad: Field<int>,
    genero: Field<string>,
    quintil: Field<int>,
    quintilAgrupado: Field<string>,
    promedioGeneral: Field<real>,
    attendance: Field<seq<AttendanceRecord>>,
    academicPerformance: Field<seq<GradeRecord>>,
    socioeconomicData: Field<seq<SocioRecord>>)

  /** `student.get(k, [])` followed by a truthiness test: the non-empty list, if any. */
  predicate HasRows<T>(f: Field<seq<T>>) {
    f.Val? && |f.v| > 0
  }
}
