/**
 * The student-profile hook: the backend profile mapped to the view record,
 * with the Spanish risk labels and empty lists for missing sections. The
 * fetch and the React state are not part of this model.
 */
module StudentProfileHook {
  import opened Py
  import opened JsValues
  import RC = RiskCalculator
  import Sat = SatDataHook

  datatype ViewRisk = Critico | Medio | Bajo

  /** `mapRiskLevel`: Alto becomes Crítico, Medio and Bajo stay; anything else becomes Bajo. */
  function MapRiskLevel(level: Js): (r: ViewRisk)
    ensures r == Critico <==> level == JsStr("Alto")
    ensures r == Medio <==> level == JsStr("Medio")
    ensures r == Bajo <==> level != JsStr("Alto") && level != JsStr("Medio")
  {
    match level
    case JsStr(s) => if s == "Alto" then Critico else if s == "Medio" then Medio else Bajo
    case _ => Bajo
  }

  /** The text of a view label. */
  function ViewName(r: ViewRisk): string {
    match r
    case Critico => "Crítico"
    case Medio => "Medio"
    case Bajo => "Bajo"
  }

  /** The profile and the dashboard translate every label to the same severity. */
  lemma TranslationsAgree(level: Js)
    ensures MapRiskLevel(level) == Critico <==> Sat.MapRiskLevel(level) == Sat.Critical
    ensures MapRiskLevel(level) == Medio <==> Sat.MapRiskLevel(level) == Sat.Medium
    ensures MapRiskLevel(level) == Bajo <==> Sat.MapRiskLevel(level) == Sat.Low
  {
  }

  /** Medio and Bajo keep their backend text; only Alto is renamed. */
  lemma BackendLevelsKeepText(l: RC.RiskLevel)
    ensures l != RC.Alto ==> ViewName(MapRiskLevel(JsStr(RC.LevelName(l)))) == RC.LevelName(l)
    ensures MapRiskLevel(JsStr(RC.LevelName(RC.Alto))) == Critico
  {
  }

  datatype ViewProfile = ViewProfile(
    id: Js, name: Js, course: Js, riskScore: Option<int>, riskLevel: ViewRisk,
    riskFactors: Js, keyBarriers: Js, keyGrades: Js)

  /** `mapProfileData`: the list sections fall back to [] when missing or falsy. */
  function MapProfileData(row: map<string, Js>): (p: ViewProfile)
    ensures p.id == Prop(row, "id") && p.name == Prop(row, "nombre") && p.course == Prop(row, "grado")
    ensures p.riskLevel == MapRiskLevel(Prop(row, "risk_level"))
    ensures Prop(row, "risk_score").JsNum? ==> p.riskScore == Some(MathRound(Prop(row, "risk_score").x))
    ensures p.riskFactors == (if JsTruthy(Prop(row, "risk_factors")) then Prop(row, "risk_factors") else JsArr([]))
    ensures p.keyBarriers == (if JsTruthy(Prop(row, "key_barriers")) then Prop(row, "key_barriers") else JsArr([]))
    ensures p.keyGrades == (if JsTruthy(Prop(row, "key_grades")) then Prop(row, "key_grades") else JsArr([]))
  {
    ViewProfile(
      Prop(row, "id"), Prop(row, "nombre"), Prop(row, "grado"),
      RoundValue(Prop(row, "risk_score")), MapRiskLevel(Prop(row, "risk_level")),
      Or(Prop(row, "risk_factors"), JsArr([])), Or(Prop(row, "key_barriers"), JsArr([])),
      Or(Prop(row, "key_grades"), JsArr([])))
  }

  /** The three list sections are always defined and truthy: a value that is present, or the empty array. */
  lemma ProfileListsDefined(row: map<string, Js>)
    ensures var p := MapProfileData(row);
      JsTruthy(p.riskFactors) && JsTruthy(p.keyBarriers) && JsTruthy(p.keyGrades)
    ensures "key_grades" !in row ==> MapProfileData(row).keyGrades == JsArr([])
  {
  }
}
