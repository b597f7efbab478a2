/**
 * The JSON response shapes of the backend utilities: a SAT-list row, the
 * four risk factors of a score, the attendance summary and the success
 * envelope. Timestamps, `round(x, 2)` and `{:.1f}` formatting are not part of
 * this model: scores are carried as reals.
 */
module Formatters {
  import opened Py
  import opened Text
  import opened Records
  import RC = RiskCalculator

  // ----- format_student_for_list -----

  datatype ListRow = ListRow(id: Option<string>, name: Option<string>, course: Option<string>,
                             level: RC.RiskLevel, score: real, keyBarriers: seq<string>, promedioGeneral: real)

  /** The first `n` elements of `s`, or all of them: `s[:n]`. */
  function Take<T>(s: seq<T>, n: nat): (r: seq<T>)
    ensures |r| == if |s| < n then |s| else n
    ensures r == s[..|r|]
  {
    if |s| < n then s else s[..n]
  }

  /**
   * `format_student_for_list`: `round(student.get("promedio_general", 0.0), 2)`
   * raises TypeError when the key holds NULL.
   */
  function FormatStudentForList(s: Student, score: real, level: RC.RiskLevel, barriers: seq<RC.Barrier>): (r: Result<ListRow>)
    ensures r.Err? <==> s.promedioGeneral.Null?
    ensures r.Ok? ==>
      |r.value.keyBarriers| == (if |barriers| < 3 then |barriers| else 3)
      && (forall k :: 0 <= k < |r.value.keyBarriers| ==> r.value.keyBarriers[k] == RC.BarrierName(barriers[k].kind))
      && r.value.id == GetOpt(s.id) && r.value.name == GetOpt(s.nombre) && r.value.course == GetOpt(s.grado)
      && r.value.level == level && r.value.score == score
      && r.value.promedioGeneral == (if s.promedioGeneral.Val? then s.promedioGeneral.v else 0.0)
  {
    match Get(s.promedioGeneral, 0.0)
    case None => Err("TypeError")
    case Some(avg) =>
      var shown := Take(barriers, 3);
      Ok(ListRow(GetOpt(s.id), GetOpt(s.nombre), GetOpt(s.grado), level, score,
                 seq(|shown|, k requires 0 <= k < |shown| => RC.BarrierName(shown[k].kind)), avg))
  }

  // ----- format_risk_factors -----

  datatype FactorEntry = FactorEntry(name: string, score: real, weight: string)

  /** `f"{int(weight * 100)}%"` for a non-negative weight. */
  function WeightText(w: real): (t: string)
    requires w >= 0.0
    ensures t == NatToString((w * 100.0).Floor) + "%"
  {
    NatToString(TruncToInt(w * 100.0)) + "%"
  }

  /** The calculator's weights print as 30%, 25%, 25% and 20%. */
  lemma CalculatorWeightTexts()
    ensures WeightText(RC.AttendanceWeight) == "30%"
    ensures WeightText(RC.QuintilWeight) == "25%"
    ensures WeightText(RC.GradesWeight) == "25%"
    ensures WeightText(RC.BarriersWeight) == "20%"
  {
    assert (RC.AttendanceWeight * 100.0).Floor == 30 && NatToString(30) == "30";
    assert (RC.QuintilWeight * 100.0).Floor == 25 && NatToString(25) == "25";
    assert (RC.BarriersWeight * 100.0).Floor == 20 && NatToString(20) == "20";
  }

  /**
   * `format_risk_factors` on the components of a score; the fallback's empty
   * components make the first lookup raise KeyError.
   */
  function FormatRiskFactors(components: Option<RC.Components>): (r: Result<seq<FactorEntry>>)
    ensures r.Err? <==> components.None?
    ensures r.Ok? ==>
      var c := components.value;
      |r.value| == 4
      && r.value[0] == FactorEntry("Ausentismo", c.attendance, "30%")
      && r.value[1] == FactorEntry("Quintil Socioeconómico", c.quintil, "25%")
      && r.value[2] == FactorEntry("Rendimiento Académico", c.grades, "25%")
      && r.value[3] == FactorEntry("Barreras Identificadas", c.barriers, "20%")
  {
    match components
    case None => Err("KeyError")
    case Some(c) =>
      CalculatorWeightTexts();
      Ok([FactorEntry("Ausentismo", c.attendance, WeightText(RC.AttendanceWeight)),
          FactorEntry("Quintil Socioeconómico", c.quintil, WeightText(RC.QuintilWeight)),
          FactorEntry("Rendimiento Académico", c.grades, WeightText(RC.GradesWeight)),
          FactorEntry("Barreras Identificadas", c.barriers, WeightText(RC.BarriersWeight))])
  }

  /** The weights of the four factors add up to the whole score: the weighted sum of the entries is the total. */
  lemma RiskFactorsRebuildScore(s: Student)
    requires RC.CalculateRiskScore(s).components.Some?
    ensures var a := RC.CalculateRiskScore(s);
      var f := FormatRiskFactors(a.components).value;
      a.score == RC.AttendanceWeight * f[0].score + RC.QuintilWeight * f[1].score
                 + RC.GradesWeight * f[2].score + RC.BarriersWeight * f[3].score
  {
  }

  // ----- format_attendance -----

  /** Working days in a month the percentage assumes. */
  const WorkingDays: int := 20

  datatype AttendanceSummary = AttendanceSummary(total: Option<int>, justified: Option<int>,
                                                 unjustified: Option<int>, percent: real)

  /** `max(0, (20 - total) / 20 * 100)`. */
  function AttendancePercent(total: int): (p: real)
    ensures p >= 0.0
    ensures total >= 0 ==> p <= 100.0
    ensures p == 100.0 <==> total == 0
    ensures p == 0.0 <==> total >= WorkingDays
  {
    var pct := ((WorkingDays - total) as real / WorkingDays as real) * 100.0;
    if pct > 0.0 then pct else 0.0
  }

  /** More absences never raise the percentage. */
  lemma AttendancePercentAntitone(a: int, b: int)
    requires a <= b
    ensures AttendancePercent(b) <= AttendancePercent(a)
  {
  }

  /**
   * `format_attendance`: no rows (missing, NULL or empty) gives zeros and
   * 100%; otherwise only the last row is read, and a NULL total makes the
   * subtraction raise TypeError.
   */
  function FormatAttendance(rows: Field<seq<AttendanceRecord>>): (r: Result<AttendanceSummary>)
    ensures !HasRows(rows) ==> r == Ok(AttendanceSummary(Some(0), Some(0), Some(0), 100.0))
    ensures HasRows(rows) ==>
      var latest := rows.v[|rows.v| - 1];
      (r.Err? <==> latest.totalInasistencias.Null?)
      && (r.Ok? ==>
            r.value.total == Get(latest.totalInasistencias, 0)
            && r.value.justified == Get(latest.faltasJustificadas, 0)
            && r.value.unjustified == Get(latest.faltasInjustificadas, 0)
            && r.value.percent == AttendancePercent(r.value.total.value))
  {
    if !HasRows(rows) then Ok(AttendanceSummary(Some(0), Some(0), Some(0), 100.0))
    else
      var latest := rows.v[|rows.v| - 1];
      match Get(latest.totalInasistencias, 0)
      case None => Err("TypeError")
      case Some(total) =>
        Ok(AttendanceSummary(Some(total), Get(latest.faltasJustificadas, 0), Get(latest.faltasInjustificadas, 0),
                             AttendancePercent(total)))
  }

  /**
   * The summary and the risk score read the same row: a full attendance
   * record is exactly a zero attendance risk when there are no unjustified
   * absences, and a month of absences (0%) puts the attendance score at its
   * cap.
   */
  lemma AttendanceSummaryMatchesScore(s: Student)
    requires RC.LatestAttendance(s).Some?
    requires var latest := RC.LatestAttendance(s).value;
      latest.totalInasistencias.Val? && latest.faltasInjustificadas.Val? && latest.faltasInjustificadas.v >= 0
      && latest.totalInasistencias.v >= 0
    ensures FormatAttendance(s.attendance).Ok? && RC.AttendanceScore(s).Ok?
    ensures FormatAttendance(s.attendance).value.percent == 0.0 ==> RC.AttendanceScore(s).value == 100.0
    ensures RC.LatestAttendance(s).value.faltasInjustificadas.v == 0 ==>
      (FormatAttendance(s.attendance).value.percent == 100.0 <==> RC.AttendanceScore(s).value == 0.0)
  {
  }

  // ----- format_success_response -----

  datatype SuccessResponse = SuccessResponse(data: Value, message: Option<Value>)

  /** `format_success_response` without its timestamp: "message" only when the message is truthy. */
  function FormatSuccessResponse(data: Value, message: Value): (r: SuccessResponse)
    ensures r.data == data
    ensures r.message.Some? <==> Truthy(message)
    ensures r.message.Some? ==> r.message.value == message
  {
    SuccessResponse(data, if Truthy(message) then Some(message) else None)
  }
}
