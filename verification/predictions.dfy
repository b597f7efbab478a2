/**
 * The prediction endpoints: POST /predict for one student, POST /batch-predict
 * for a list, and the rule-of-thumb quintile estimate from barrier counts.
 * Database reads and writes are parameters: `lookup` is `get_student_by_id`
 * (None when the student is missing or the query fails) and `saved` is
 * whether `save_prediction` returned a row.
 */
module Predictions {
  import opened Py
  import opened Text
  import opened Records
  import RC = RiskCalculator

  /** A JSON value of a request body. */
  datatype Json = JStr(s: string) | JList(items: seq<Json>) | JOther

  // ----- quintile estimate -----

  /** `socio.get(k, "").lower()`: raises AttributeError when the column holds NULL. */
  function LowerOrRaise(f: Field<string>): Result<string> {
    match f
    case Absent => Ok("")
    case Null => Err("AttributeError")
    case Val(v) => Ok(Lower(v))
  }

  /** Barrier count from the technology flags and reading habit (what cannot raise). */
  function FlagCount(sd: SocioRecord): (c: real)
    ensures 0.0 <= c <= 3.0
  {
    (if RC.Lacks(sd.laptop) then 1.0 else 0.0)
    + (if RC.Lacks(sd.internet) then 1.0 else 0.0)
    + (if RC.Lacks(sd.computadora) then 0.5 else 0.0)
    + (if RC.Lacks(sd.lecturaLibros) then 0.5 else 0.0)
  }

  /** Barrier count from the three lowered texts. */
  function TextCount(nivel: string, salud: string, apoyo: string): (c: real)
    ensures 0.0 <= c <= 3.5
  {
    (if Contains(nivel, "primaria") then 1.5 else if Contains(nivel, "básica") then 1.0 else 0.0)
    + (if Contains(salud, "sin") then 1.0 else 0.0)
    + (if Contains(apoyo, "bajo") then 1.0 else 0.0)
  }

  /** The quintile for a barrier count: more barriers, lower (more vulnerable) quintile. */
  function QuintilForCount(c: real): (q: int)
    ensures 1 <= q <= 5
  {
    if c >= 5.0 then 1 else if c >= 3.0 then 2 else if c >= 1.5 then 3 else if c >= 0.5 then 4 else 5
  }

  /** More barriers never give a higher (better-off) quintile. */
  lemma QuintilForCountAntitone(a: real, b: real)
    requires a <= b
    ensures QuintilForCount(b) <= QuintilForCount(a)
  {
  }

  /**
   * `_predict_quintil_from_barriers` as written: a NULL level, health or
   * support text makes `.lower()` raise.
   */
  function PredictQuintilAsWritten(s: Student): (r: Result<int>)
    ensures r.Ok? ==> 1 <= r.value <= 5
    ensures RC.FirstSocio(s).None? ==> r == Ok(3)
  {
    match RC.FirstSocio(s)
    case None => Ok(3)
    case Some(sd) =>
      match (LowerOrRaise(sd.nivelInstruccionRep), LowerOrRaise(sd.indiceCoberturaSalud), LowerOrRaise(sd.indiceApoyoFamiliar))
      case (Ok(nivel), Ok(salud), Ok(apoyo)) => Ok(QuintilForCount(FlagCount(sd) + TextCount(nivel, salud, apoyo)))
      case _ => Err("AttributeError")
  }

  /** A student whose first socioeconomic row has a NULL health index. */
  function NullHealthStudent(): Student {
    var sd := SocioRecord(Val(true), Val(true), Val(true), Val(true), Val("Secundaria"), Null, Absent, Absent);
    Student(Val("EST001"), Absent, Absent, Absent, Absent, Absent, Absent, Absent, Absent, Absent, Val([sd]))
  }

  /**
   * As written, a student whose socioeconomic row holds NULL in
   * `indice_cobertura_salud` (the risk calculator's own comment says these
   * indices may be NULL) makes the estimate raise.
   */
  lemma NullIndexRaises()
    ensures PredictQuintilAsWritten(NullHealthStudent()).Err?
  {
  }

  /** `.get(k, "")` with NULL read as "", the way the risk calculator reads the same columns. */
  function LowerOrEmpty(f: Field<string>): string {
    Lower(StrOrEmpty(f))
  }

  /** The estimate with NULL texts read as empty: always a quintile, 3 without socioeconomic data. */
  function PredictQuintil(s: Student): (q: int)
    ensures 1 <= q <= 5
    ensures RC.FirstSocio(s).None? ==> q == 3
    ensures PredictQuintilAsWritten(s).Ok? ==> PredictQuintilAsWritten(s) == Ok(q)
  {
    match RC.FirstSocio(s)
    case None => 3
    case Some(sd) =>
      QuintilForCount(FlagCount(sd)
        + TextCount(LowerOrEmpty(sd.nivelInstruccionRep), LowerOrEmpty(sd.indiceCoberturaSalud), LowerOrEmpty(sd.indiceApoyoFamiliar)))
  }

  /** A row with every barrier present estimates quintile 1; a row with none estimates quintile 5. */
  lemma PredictQuintilExtremes(s: Student)
    requires RC.FirstSocio(s).Some?
    ensures var sd := RC.FirstSocio(s).value;
      var texts := TextCount(LowerOrEmpty(sd.nivelInstruccionRep), LowerOrEmpty(sd.indiceCoberturaSalud), LowerOrEmpty(sd.indiceApoyoFamiliar));
      (FlagCount(sd) == 3.0 && texts >= 2.0 ==> PredictQuintil(s) == 1)
      && (FlagCount(sd) == 0.0 && texts == 0.0 ==> PredictQuintil(s) == 5)
  {
  }

  // ----- POST /predict -----

  datatype PredictResponse =
    | MissingStudentId                 // 400
    | StudentNotFound                  // 404
    | Predicted(studentId: Json, score: real, level: RC.RiskLevel, predictedQuintil: int,
                components: Option<RC.Components>, predictionSaved: bool)   // 200
    | PredictionFailed                 // 500

  function Status(r: PredictResponse): int {
    match r
    case MissingStudentId => 400
    case StudentNotFound => 404
    case Predicted(_, _, _, _, _, _) => 200
    case PredictionFailed => 500
  }

  /**
   * `predict_risk`: the body is the parsed JSON object (None when there is
   * none). The estimate is the one as written, so a NULL text column makes the
   * handler's catch-all answer 500.
   */
  function PredictRisk(body: Option<map<string, Json>>, lookup: Json -> Option<Student>, saved: bool): (r: PredictResponse)
    ensures r == MissingStudentId <==> body.None? || "student_id" !in body.value
    ensures r == StudentNotFound <==> body.Some? && "student_id" in body.value && lookup(body.value["student_id"]).None?
    ensures r == PredictionFailed <==>
      body.Some? && "student_id" in body.value && lookup(body.value["student_id"]).Some?
      && PredictQuintilAsWritten(lookup(body.value["student_id"]).value).Err?
    ensures r.Predicted? ==>
      var s := lookup(body.value["student_id"]).value;
      var a := RC.CalculateRiskScore(s);
      r.studentId == body.value["student_id"] && r.score == a.score && r.level == a.level
      && r.components == a.components && r.predictionSaved == saved
      && PredictQuintilAsWritten(s) == Ok(r.predictedQuintil) && r.predictedQuintil == PredictQuintil(s)
  {
    if body.None? || body.value == map[] || "student_id" !in body.value then MissingStudentId
    else
      var id := body.value["student_id"];
      match lookup(id)
      case None => StudentNotFound
      case Some(s) =>
        var a := RC.CalculateRiskScore(s);
        match PredictQuintilAsWritten(s)
        case Err(_) => PredictionFailed
        case Ok(q) => Predicted(id, a.score, a.level, q, a.components, saved)
  }

  // ----- POST /batch-predict -----

  datatype BatchEntry = BatchEntry(studentId: Json, score: real, level: RC.RiskLevel, predictedQuintil: int)

  datatype BatchResponse =
    | MissingStudentIds                // 400
    | NotAList                         // 400
    | Batch(totalRequested: nat, totalPredicted: nat, predictions: seq<BatchEntry>)   // 200

  /** The entry of one found student, or the error of its estimate. */
  function EntryFor(id: Json, s: Student): (e: Result<BatchEntry>)
    ensures e.Ok? <==> PredictQuintilAsWritten(s).Ok?
    ensures e.Ok? ==>
      e.value.studentId == id && e.value.predictedQuintil == PredictQuintilAsWritten(s).value
      && e.value.score == RC.CalculateRiskScore(s).score && e.value.level == RC.CalculateRiskScore(s).level
  {
    var a := RC.CalculateRiskScore(s);
    match PredictQuintilAsWritten(s)
    case Err(e) => Err(e)
    case Ok(q) => Ok(BatchEntry(id, a.score, a.level, q))
  }

  /** The predictions of a batch: one per id that is found and whose estimate succeeds, in request order. */
  function BatchEntries(ids: seq<Json>, lookup: Json -> Option<Student>): seq<BatchEntry> {
    if ids == [] then []
    else
      var last := ids[|ids| - 1];
      BatchEntries(ids[..|ids| - 1], lookup)
      + match lookup(last)
        case None => []
        case Some(s) => if EntryFor(last, s).Ok? then [EntryFor(last, s).value] else []
  }

  /** The ids of a batch that the database finds, in request order. */
  function FoundIds(ids: seq<Json>, lookup: Json -> Option<Student>): (f: seq<Json>)
    ensures |f| <= |ids|
  {
    if ids == [] then []
    else FoundIds(ids[..|ids| - 1], lookup) + if lookup(ids[|ids| - 1]).Some? then [ids[|ids| - 1]] else []
  }

  /** A found id whose estimate succeeds. */
  predicate Predictable(id: Json, lookup: Json -> Option<Student>) {
    lookup(id).Some? && PredictQuintilAsWritten(lookup(id).value).Ok?
  }

  /** The found ids whose estimate succeeds, in request order: never more than the found ones. */
  function PredictedIds(ids: seq<Json>, lookup: Json -> Option<Student>): (p: seq<Json>)
    ensures |p| <= |FoundIds(ids, lookup)|
    ensures forall k :: 0 <= k < |p| ==> Predictable(p[k], lookup)
  {
    if ids == [] then []
    else
      var last := ids[|ids| - 1];
      PredictedIds(ids[..|ids| - 1], lookup) + if Predictable(last, lookup) then [last] else []
  }

  /**
   * The predictions follow the predictable ids one for one: entry `k` is the
   * prediction for the `k`-th of them. Ids that are not found, or whose
   * estimate raises, are skipped.
   */
  lemma {:induction false} BatchEntriesAreFoundIds(ids: seq<Json>, lookup: Json -> Option<Student>)
    ensures |BatchEntries(ids, lookup)| == |PredictedIds(ids, lookup)|
    ensures forall k :: 0 <= k < |PredictedIds(ids, lookup)| ==>
      var id := PredictedIds(ids, lookup)[k];
      lookup(id).Some? && EntryFor(id, lookup(id).value).Ok?
      && BatchEntries(ids, lookup)[k] == EntryFor(id, lookup(id).value).value
  {
    if ids != [] {
      BatchEntriesAreFoundIds(ids[..|ids| - 1], lookup);
    }
  }

  /** `batch_predict`: a student whose estimate raises is logged and skipped by the per-student catch-all. */
  method BatchPredict(body: Option<map<string, Json>>, lookup: Json -> Option<Student>) returns (r: BatchResponse)
    ensures r == MissingStudentIds <==> body.None? || "student_ids" !in body.value
    ensures r == NotAList <==> body.Some? && "student_ids" in body.value && !body.value["student_ids"].JList?
    ensures r.Batch? ==>
      var ids := body.value["student_ids"].items;
      r.totalRequested == |ids| && r.predictions == BatchEntries(ids, lookup)
      && r.totalPredicted == |r.predictions| == |PredictedIds(ids, lookup)|
      && r.totalPredicted <= |FoundIds(ids, lookup)| <= r.totalRequested
  {
    if body.None? || body.value == map[] || "student_ids" !in body.value {
      return MissingStudentIds;
    }
    var value := body.value["student_ids"];
    if !value.JList? {
      return NotAList;
    }
    var ids := value.items;
    var predictions: seq<BatchEntry> := [];
    var i := 0;
    while i < |ids|
      invariant 0 <= i <= |ids|
      invariant predictions == BatchEntries(ids[..i], lookup)
    {
      assert ids[..i + 1][..i] == ids[..i];
      var student := lookup(ids[i]);
      if student.Some? {
        var a := RC.CalculateRiskScore(student.value);
        var q := PredictQuintilAsWritten(student.value);
        if q.Ok? {
          predictions := predictions + [BatchEntry(ids[i], a.score, a.level, q.value)];
        }
      }
      i := i + 1;
    }
    assert ids[..|ids|] == ids;
    BatchEntriesAreFoundIds(ids, lookup);
    r := Batch(|ids|, |predictions|, predictions);
  }
}
