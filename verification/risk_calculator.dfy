/**
 * The risk score of one student: four component scores on a 0..100 scale,
 * weighted 25/30/25/20, and a three-level classification. Any exception
 * inside the computation yields the fallback (0.0, "Bajo", no components).
 */
module RiskCalculator {
  import opened Py
  import opened Text
  import opened Records

  const QuintilWeight: real := 0.25
  const AttendanceWeight: real := 0.30
  const GradesWeight: real := 0.25
  const BarriersWeight: real := 0.20

  /** Importances (percent) of the barriers the score uses. */
  const LaptopImportance: real := 4.26
  const NivelInstruccionImportance: real := 3.02
  const LecturaLibrosImportance: real := 3.23
  const CoberturaSaludImportance: real := 4.58
  const AccesoTecnologicoImportance: real := 3.12
  const ApoyoFamiliarImportance: real := 2.44
  /** Internet has no importance in the table; it adds a fixed 2 points. */
  const InternetPoints: real := 2.0
  /** The "theoretical maximum" the barrier points are normalised by. */
  const BarrierScale: real := 30.0

  datatype RiskLevel = Alto | Medio | Bajo

  function LevelName(l: RiskLevel): string {
    match l
    case Alto => "Alto"
    case Medio => "Medio"
    case Bajo => "Bajo"
  }

  datatype Components = Components(quintil: real, attendance: real, grades: real, barriers: real)

  /** `(risk_score, risk_level, components)`; `components == None` is the empty dict of the fallback. */
  datatype Assessment = Assessment(score: real, level: RiskLevel, components: Option<Components>)

  /** The weights add up to one. */
  lemma WeightsSumToOne()
    ensures QuintilWeight + AttendanceWeight + GradesWeight + BarriersWeight == 1.0
  {
  }

  // ----- quintil -----

  /** `student.get("quintil") or 5`. */
  function QuintilOrFive(s: Student): int {
    if s.quintil.Val? && s.quintil.v != 0 then s.quintil.v else 5
  }

  /** `(student.get("quintil_agrupado") or "").lower()`. */
  function QuintilGroup(s: Student): string {
    Lower(StrOrEmpty(s.quintilAgrupado))
  }

  function QuintilScore(s: Student): (r: real)
    ensures r == 100.0 || r == 50.0 || r == 0.0
    ensures r == 100.0 <==> Contains(QuintilGroup(s), "bajo") || QuintilOrFive(s) <= 2
    ensures r == 0.0 <==> !Contains(QuintilGroup(s), "bajo") && !Contains(QuintilGroup(s), "medio") && QuintilOrFive(s) >= 4
  {
    var q, g := QuintilOrFive(s), QuintilGroup(s);
    if Contains(g, "bajo") || q <= 2 then 100.0
    else if Contains(g, "medio") || q == 3 then 50.0
    else 0.0
  }

  /**
   * Without a group label, a lower quintile never scores less risk; a missing,
   * null or zero quintil counts as quintil 5.
   */
  lemma QuintilScoreAntitone(s: Student, t: Student)
    requires StrOrEmpty(s.quintilAgrupado) == "" && StrOrEmpty(t.quintilAgrupado) == ""
    requires QuintilOrFive(s) <= QuintilOrFive(t)
    ensures QuintilScore(s) >= QuintilScore(t)
  {
    assert !Contains("", "bajo") && !Contains("", "medio");
  }

  // ----- attendance -----

  /** The most recent attendance row, if the list is non-empty. */
  function LatestAttendance(s: Student): Option<AttendanceRecord> {
    if HasRows(s.attendance) then Some(s.attendance.v[|s.attendance.v| - 1]) else None
  }

  /**
   * `min(10 * total_inasistencias + 15 * faltas_injustificadas, 100)` on the
   * latest row; a NULL count raises TypeError.
   */
  function AttendanceScore(s: Student): (r: Result<real>)
    ensures r.Ok? ==> r.value <= 100.0
    ensures r.Err? <==> LatestAttendance(s).Some? && (LatestAttendance(s).value.totalInasistencias.Null? || LatestAttendance(s).value.faltasInjustificadas.Null?)
    ensures LatestAttendance(s).None? ==> r == Ok(0.0)
  {
    match LatestAttendance(s)
    case None => Ok(0.0)
    case Some(latest) =>
      match (Get(latest.totalInasistencias, 0), Get(latest.faltasInjustificadas, 0))
      case (Some(total), Some(injust)) =>
        var score := (total * 10 + injust * 15) as real;
        Ok(if score < 100.0 then score else 100.0)
      case _ => Err("TypeError")
  }

  /** Non-negative counts on the latest row. */
  predicate CountsNonNegative(s: Student) {
    LatestAttendance(s).Some? ==>
      var latest := LatestAttendance(s).value;
      (latest.totalInasistencias.Val? ==> latest.totalInasistencias.v >= 0)
      && (latest.faltasInjustificadas.Val? ==> latest.faltasInjustificadas.v >= 0)
  }

  /** With non-negative counts the attendance score lies in 0..100, and every absence raises it until the cap. */
  lemma AttendanceScoreRange(s: Student)
    requires CountsNonNegative(s)
    ensures AttendanceScore(s).Ok? ==> 0.0 <= AttendanceScore(s).value <= 100.0
  {
  }

  // ----- grades -----

  /** `sum(1 for m in academic_performance if m.get("nota", 10.0) < 7.0)`; None when a nota is NULL. */
  function FailingCount(rows: seq<GradeRecord>): (r: Option<nat>)
    ensures r.Some? ==> r.value <= |rows|
    ensures r.None? <==> exists i :: 0 <= i < |rows| && rows[i].nota.Null?
  {
    if rows == [] then Some(0)
    else
      var rest := FailingCount(rows[1..]);
      if rows[0].nota.Null? || rest.None? then None
      else
        var n := if rows[0].nota.Val? then rows[0].nota.v else 10.0;
        Some(rest.value + if n < 7.0 then 1 else 0)
  }

  /**
   * `min(max(0, (10 - promedio_general) * 10) + 15 * failing, 100)`;
   * NULL promedio, NULL list or a NULL nota raise TypeError.
   */
  function GradesScore(s: Student): (r: Result<real>)
    ensures r.Ok? ==> 0.0 <= r.value <= 100.0
    ensures r.Err? <==> s.promedioGeneral.Null? || s.academicPerformance.Null?
                        || (s.academicPerformance.Val? && FailingCount(s.academicPerformance.v).None?)
  {
    var rows := if s.academicPerformance.Val? then s.academicPerformance.v else [];
    if s.academicPerformance.Null? then Err("TypeError")
    else
      match (Get(s.promedioGeneral, 10.0), FailingCount(rows))
      case (Some(p), Some(c)) =>
        var promedioScore := if (10.0 - p) * 10.0 > 0.0 then (10.0 - p) * 10.0 else 0.0;
        var total := promedioScore + (c * 15) as real;
        Ok(if total < 100.0 then total else 100.0)
      case _ => Err("TypeError")
  }

  /** Seven or more failing subjects saturate the grades score whatever the average. */
  lemma GradesScoreSaturates(s: Student)
    requires s.academicPerformance.Val? && s.promedioGeneral.Val?
    requires FailingCount(s.academicPerformance.v).Some? && FailingCount(s.academicPerformance.v).value >= 7
    ensures GradesScore(s) == Ok(100.0)
  {
  }

  // ----- barriers -----

  /** The first socioeconomic row, if the list is non-empty. */
  function FirstSocio(s: Student): Option<SocioRecord> {
    if HasRows(s.socioeconomicData) then Some(s.socioeconomicData.v[0]) else None
  }

  /** `not socio.get(k, False)`. */
  predicate Lacks(f: Field<bool>) { !TruthyBool(f) }

  /** Representative with primary or basic schooling, read as `(get(k) or "").lower()`. */
  predicate LowInstruction(sd: SocioRecord) {
    var nivel := Lower(StrOrEmpty(sd.nivelInstruccionRep));
    Contains(nivel, "primaria") || Contains(nivel, "básica")
  }

  predicate NoHealthCoverage(sd: SocioRecord) {
    var salud := StrOrEmpty(sd.indiceCoberturaSalud);
    salud != "" && Contains(Lower(salud), "sin")
  }

  predicate LowTechAccess(sd: SocioRecord) {
    var tech := StrOrEmpty(sd.indiceAccesoTecnologico);
    tech != "" && (Contains(Lower(tech), "bajo") || Contains(Lower(tech), "sin"))
  }

  predicate LowFamilySupport(sd: SocioRecord) {
    var apoyo := StrOrEmpty(sd.indiceApoyoFamiliar);
    apoyo != "" && Contains(Lower(apoyo), "bajo")
  }

  function LaptopPoints(sd: SocioRecord): real { if Lacks(sd.laptop) then LaptopImportance else 0.0 }
  function InstructionPoints(sd: SocioRecord): real { if LowInstruction(sd) then NivelInstruccionImportance else 0.0 }
  function ReadingPoints(sd: SocioRecord): real { if Lacks(sd.lecturaLibros) then LecturaLibrosImportance else 0.0 }
  function ConnectivityPoints(sd: SocioRecord): real { if Lacks(sd.internet) then InternetPoints else 0.0 }
  function HealthPoints(sd: SocioRecord): real { if NoHealthCoverage(sd) then CoberturaSaludImportance else 0.0 }
  function TechPoints(sd: SocioRecord): real { if LowTechAccess(sd) then AccesoTecnologicoImportance else 0.0 }
  function SupportPoints(sd: SocioRecord): real { if LowFamilySupport(sd) then ApoyoFamiliarImportance else 0.0 }

  /** The importance points of the barriers present in one socioeconomic row. */
  function BarrierPoints(sd: SocioRecord): (p: real)
    ensures 0.0 <= p <= 22.65
  {
    LaptopPoints(sd) + InstructionPoints(sd) + ReadingPoints(sd) + ConnectivityPoints(sd)
    + HealthPoints(sd) + TechPoints(sd) + SupportPoints(sd)
  }

  /** `min(points / 30 * 100, 100)`: never reaches its cap, at most 75.5. */
  function BarriersScore(s: Student): (r: real)
    ensures 0.0 <= r <= 75.5
    ensures FirstSocio(s).None? ==> r == 0.0
    ensures FirstSocio(s).Some? ==> r == BarrierPoints(FirstSocio(s).value) / BarrierScale * 100.0
  {
    match FirstSocio(s)
    case None => 0.0
    case Some(sd) =>
      var normalized := BarrierPoints(sd) / BarrierScale * 100.0;
      if normalized < 100.0 then normalized else 100.0
  }

  // ----- total and level -----

  /** `_classify_risk_level`. */
  function Classify(score: real): (l: RiskLevel)
    ensures l == Alto <==> score >= 70.0
    ensures l == Medio <==> 40.0 <= score < 70.0
    ensures l == Bajo <==> score < 40.0
  {
    if score >= 70.0 then Alto else if score >= 40.0 then Medio else Bajo
  }

  /** Severity order of the levels. */
  function Rank(l: RiskLevel): nat {
    match l
    case Bajo => 0
    case Medio => 1
    case Alto => 2
  }

  /** A higher score is never classified at a lower level. */
  lemma ClassifyMonotone(a: real, b: real)
    requires a <= b
    ensures Rank(Classify(a)) <= Rank(Classify(b))
  {
  }

  function WeightedTotal(c: Components): real {
    QuintilWeight * c.quintil + AttendanceWeight * c.attendance
    + GradesWeight * c.grades + BarriersWeight * c.barriers
  }

  /**
   * `calculate_risk_score`: the weighted total of the four components and its
   * level; the fallback when a component raises.
   */
  function CalculateRiskScore(s: Student): (a: Assessment)
    ensures a.components.None? <==> AttendanceScore(s).Err? || GradesScore(s).Err?
    ensures a.components.None? ==> a == Assessment(0.0, Bajo, None)
    ensures a.components.Some? ==>
      var c := a.components.value;
      c.quintil == QuintilScore(s) && Ok(c.attendance) == AttendanceScore(s)
      && Ok(c.grades) == GradesScore(s) && c.barriers == BarriersScore(s)
      && a.score == WeightedTotal(c) && a.level == Classify(a.score)
  {
    match (AttendanceScore(s), GradesScore(s))
    case (Ok(att), Ok(gr)) =>
      var c := Components(QuintilScore(s), att, gr, BarriersScore(s));
      var total := WeightedTotal(c);
      Assessment(total, Classify(total), Some(c))
    case _ => Assessment(0.0, Bajo, None)
  }

  /** With non-negative attendance counts the total lies in 0..95.1 (the barrier score tops out at 75.5). */
  lemma TotalRange(s: Student)
    requires CountsNonNegative(s)
    ensures 0.0 <= CalculateRiskScore(s).score <= 95.1
  {
    AttendanceScoreRange(s);
  }

  /** The level always agrees with the score: the fallback's 0.0 is "Bajo" too. */
  lemma LevelMatchesScore(s: Student)
    ensures CalculateRiskScore(s).level == Classify(CalculateRiskScore(s).score)
  {
  }

  // ----- key barriers -----

  /** The six barriers the listing can report, in the order it reports them. */
  datatype BarrierKind = NoLaptop | LowInstructionLevel | NoReading | NoInternet | NoHealthInsurance | LowSupport

  /** One entry of the listing: `{"name", "value", "impact"}`. */
  datatype Barrier = Barrier(kind: BarrierKind, value: string, impact: string)

  /** The `name` of an entry. */
  function BarrierName(k: BarrierKind): string {
    match k
    case NoLaptop => "Sin laptop"
    case LowInstructionLevel => "Nivel Instrucción Representante"
    case NoReading => "No lee libros en casa"
    case NoInternet => "Sin internet"
    case NoHealthInsurance => "Sin cobertura de salud"
    case LowSupport => "Apoyo familiar bajo"
  }

  /** `socio.get("nivel_instruccion_rep") or "Desconocido"`. */
  function NivelOrUnknown(sd: SocioRecord): string {
    if sd.nivelInstruccionRep.Val? && sd.nivelInstruccionRep.v != "" then sd.nivelInstruccionRep.v else "Desconocido"
  }

  /** `get_key_barriers_list`: the barriers present, in a fixed order; the technology index is never listed. */
  function KeyBarriers(s: Student): (bs: seq<Barrier>)
    ensures FirstSocio(s).None? ==> bs == []
    ensures |bs| <= 6
  {
    match FirstSocio(s)
    case None => []
    case Some(sd) =>
      LaptopBarrier(sd) + NivelBarrier(sd) + LecturaBarrier(sd) + InternetBarrier(sd)
      + SaludBarrier(sd) + ApoyoBarrier(sd)
  }

  /** The level as the listing reads it: `get(k) or "Desconocido"`, then primary or basic. */
  predicate NivelListed(sd: SocioRecord) {
    var nivel := NivelOrUnknown(sd);
    nivel != "" && (Contains(Lower(nivel), "primaria") || Contains(Lower(nivel), "básica"))
  }

  function LaptopBarrier(sd: SocioRecord): seq<Barrier> {
    if Lacks(sd.laptop) then [Barrier(NoLaptop, "No", "4.26% (Top 3 barrera)")] else []
  }

  function NivelBarrier(sd: SocioRecord): seq<Barrier> {
    if NivelListed(sd) then [Barrier(LowInstructionLevel, NivelOrUnknown(sd), "3.02% (Top 8 barrera)")] else []
  }

  function LecturaBarrier(sd: SocioRecord): seq<Barrier> {
    if Lacks(sd.lecturaLibros) then [Barrier(NoReading, "No", "3.23% (Top 6 barrera)")] else []
  }

  function InternetBarrier(sd: SocioRecord): seq<Barrier> {
    if Lacks(sd.internet) then [Barrier(NoInternet, "No", "Brecha digital")] else []
  }

  function SaludBarrier(sd: SocioRecord): seq<Barrier> {
    if NoHealthCoverage(sd) then [Barrier(NoHealthInsurance, StrOrEmpty(sd.indiceCoberturaSalud), "4.58% (Top 2 barrera)")] else []
  }

  function ApoyoBarrier(sd: SocioRecord): seq<Barrier> {
    if LowFamilySupport(sd) then [Barrier(LowSupport, StrOrEmpty(sd.indiceApoyoFamiliar), "2.44% (Top 12 barrera)")] else []
  }

  /** The points a listed barrier adds to the barrier score. */
  function PointsOf(k: BarrierKind): real {
    match k
    case NoLaptop => LaptopImportance
    case LowInstructionLevel => NivelInstruccionImportance
    case NoReading => LecturaLibrosImportance
    case NoInternet => InternetPoints
    case NoHealthInsurance => CoberturaSaludImportance
    case LowSupport => ApoyoFamiliarImportance
  }

  function SumPoints(bs: seq<Barrier>): real {
    if bs == [] then 0.0 else PointsOf(bs[0].kind) + SumPoints(bs[1..])
  }

  lemma {:induction false} SumPointsAppend(a: seq<Barrier>, b: seq<Barrier>)
    ensures SumPoints(a + b) == SumPoints(a) + SumPoints(b)
  {
    if a == [] {
      assert a + b == b;
    } else {
      assert (a + b)[1..] == a[1..] + b;
      SumPointsAppend(a[1..], b);
    }
  }

  /** The default "Desconocido" never reads as primary or basic schooling. */
  lemma UnknownIsNotLowInstruction()
    ensures !Contains(Lower("Desconocido"), "primaria") && !Contains(Lower("Desconocido"), "básica")
  {
    var d := "Desconocido";
    LowerAvoids(d, 'p');
    LowerAvoids(d, 'b');
    if Contains(Lower(d), "primaria") { ContainsFirstChar(Lower(d), "primaria"); }
    if Contains(Lower(d), "básica") { ContainsFirstChar(Lower(d), "básica"); }
  }

  /** The listing reads the level as `get(k) or "Desconocido"`, the score as `get(k) or ""`: they agree. */
  lemma NivelListedIffLowInstruction(sd: SocioRecord)
    ensures NivelListed(sd) <==> LowInstruction(sd)
  {
    UnknownIsNotLowInstruction();
    assert !Contains(Lower(""), "primaria") && !Contains(Lower(""), "básica");
  }

  /**
   * The barrier points are exactly the points of the listed barriers plus,
   * when present, the technology-access barrier, which is scored but never
   * listed.
   */
  lemma BarrierPointsAreListed(s: Student)
    requires FirstSocio(s).Some?
    ensures BarrierPoints(FirstSocio(s).value)
            == SumPoints(KeyBarriers(s)) + (if LowTechAccess(FirstSocio(s).value) then AccesoTecnologicoImportance else 0.0)
  {
    var sd := FirstSocio(s).value;
    NivelListedIffLowInstruction(sd);
    var b1, b2, b3 := LaptopBarrier(sd), NivelBarrier(sd), LecturaBarrier(sd);
    var b4, b5, b6 := InternetBarrier(sd), SaludBarrier(sd), ApoyoBarrier(sd);
    assert SumPoints(b1) == LaptopPoints(sd);
    assert SumPoints(b2) == InstructionPoints(sd);
    assert SumPoints(b3) == ReadingPoints(sd);
    assert SumPoints(b4) == ConnectivityPoints(sd);
    assert SumPoints(b5) == HealthPoints(sd);
    assert SumPoints(b6) == SupportPoints(sd);
    SumPointsAppend(b1 + b2 + b3 + b4 + b5, b6);
    SumPointsAppend(b1 + b2 + b3 + b4, b5);
    SumPointsAppend(b1 + b2 + b3, b4);
    SumPointsAppend(b1 + b2, b3);
    SumPointsAppend(b1, b2);
  }

  /** A student without listed barriers scores at most the technology barrier (10.4 points). */
  lemma NoListedBarriersLowScore(s: Student)
    requires KeyBarriers(s) == []
    ensures BarriersScore(s) <= 10.4
  {
    if FirstSocio(s).Some? {
      BarrierPointsAreListed(s);
    }
  }
}
