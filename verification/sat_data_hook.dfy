/**
 * The SAT dashboard hook: backend student rows mapped to the view records
 * the table shows, with the English risk labels. The HTTP fetch and the React
 * state are not part of this model; the rows are a parameter.
 */
module SatDataHook {
  import opened Py
  import opened JsValues
  import RC = RiskCalculator

  datatype ViewRisk = Critical | Medium | Low

  /** `mapRiskLevel`: Alto, Medio and Bajo become Critical, Medium and Low; anything else becomes Low. */
  function MapRiskLevel(level: Js): (r: ViewRisk)
    ensures r == Critical <==> level == JsStr("Alto")
    ensures r == Medium <==> level == JsStr("Medio")
    ensures r == Low <==> level != JsStr("Alto") && level != JsStr("Medio")
  {
    match level
    case JsStr(s) => if s == "Alto" then Critical else if s == "Medio" then Medium else Low
    case _ => Low
  }

  /** The three backend levels get three different labels, in the same order of severity. */
  lemma BackendLevelsTranslated(l: RC.RiskLevel)
    ensures MapRiskLevel(JsStr(RC.LevelName(l))) == (match l case Alto => Critical case Medio => Medium case Bajo => Low)
  {
  }

  datatype Alerts = Alerts(absences: Js, hasLaptop: bool, quintile: string)

  datatype ViewStudent = ViewStudent(
    id: Js, name: Js, grade: Js, riskLevel: ViewRisk, riskScore: Option<int>,
    age: Js, socioeconomicStratum: Js, mainAlerts: Js, alerts: Alerts)

  /** One row of `mapStudentData`. */
  function MapStudent(row: map<string, Js>): (v: ViewStudent)
    ensures v.id == Prop(row, "id") && v.name == Prop(row, "nombre") && v.grade == Prop(row, "grado")
    ensures v.socioeconomicStratum == Prop(row, "quintil")
    ensures v.alerts.quintile == "Quintil " + Text(Prop(row, "quintil"))
    ensures v.alerts.hasLaptop <==> !JsTruthy(Prop(row, "laptop"))
    ensures Prop(row, "risk_score").JsNum? ==> v.riskScore == Some(MathRound(Prop(row, "risk_score").x))
  {
    ViewStudent(
      Prop(row, "id"), Prop(row, "nombre"), Prop(row, "grado"),
      MapRiskLevel(Prop(row, "risk_level")), RoundValue(Prop(row, "risk_score")),
      Prop(row, "edad"), Prop(row, "quintil"), Prop(row, "key_barriers"),
      Alerts(Prop(row, "total_inasistencias"), !JsTruthy(Prop(row, "laptop")), "Quintil " + Text(Prop(row, "quintil"))))
  }

  /** `mapStudentData`: one view record per backend row, in order. */
  function MapStudentData(rows: seq<map<string, Js>>): (vs: seq<ViewStudent>)
    ensures |vs| == |rows|
    ensures forall i :: 0 <= i < |rows| ==> vs[i] == MapStudent(rows[i])
  {
    seq(|rows|, i requires 0 <= i < |rows| => MapStudent(rows[i]))
  }

  /** Mapping commutes with concatenation: each row is mapped on its own. */
  lemma MapStudentDataAppend(a: seq<map<string, Js>>, b: seq<map<string, Js>>)
    ensures MapStudentData(a + b) == MapStudentData(a) + MapStudentData(b)
  {
  }

  /**
   * As written, `hasLaptop` is the negation of the backend's `laptop`: a
   * student whose record says it has a laptop is shown without one, and a
   * record that does not mention the laptop shows one.
   */
  lemma LaptopFlagInverted(row: map<string, Js>)
    ensures Prop(row, "laptop") == JsBool(true) ==> !MapStudent(row).alerts.hasLaptop
    ensures "laptop" !in row ==> MapStudent(row).alerts.hasLaptop
  {
  }

  /** A backend score in 0..95.1 shows as a whole number in 0..95, within half a point of the score. */
  lemma RoundedScoreRange(x: real, text: string)
    requires 0.0 <= x <= 95.1
    ensures var r := RoundValue(JsNum(x, text)).value; 0 <= r <= 95 && x - 0.5 < r as real <= x + 0.5
  {
  }
}
