/**
 * The gender back-fill: a student whose `genero` is empty gets the gender
 * of their first name from a table of Spanish given names ('M' or 'F'), the
 * analysis counts what it found, and unless the run is a dry run each
 * inferred gender is written as "Masculino" or "Femenino". The name table is
 * the parameter `names`; whether a write succeeds is the parameter `accepts`.
 */
module Gender {
  import opened Py
  import opened Text

  /** The given-name table: a lower-case first name and its gender letter. */
  type NameTable = map<string, char>

  /** The first word of `split()`; a text with no word raises `IndexError`. */
  function FirstToken(name: string): (r: Result<string>)
    ensures r.Err? <==> forall i :: 0 <= i < |name| ==> IsSpace(name[i])
    ensures r.Ok? ==> Split(name) != [] && r.value == Split(name)[0] && IsWord(r.value)
  {
    SplitEmpty(name);
    var ws := Split(name);
    if ws == [] then Err("IndexError") else Ok(ws[0])
  }

  /**
   * `infer_gender`: a falsy name is unknown; otherwise the lowered first word
   * is looked up in the table; a name that is all whitespace raises.
   */
  function InferGender(names: NameTable, fullName: Option<string>): (r: Result<Option<char>>)
    ensures !TruthyStr(fullName) ==> r == Ok(None)
    ensures TruthyStr(fullName) ==>
      (r.Err? <==> FirstToken(fullName.value).Err?)
    ensures r.Ok? && r.value.Some? ==>
      TruthyStr(fullName) && Strip(Lower(FirstToken(fullName.value).value)) in names
      && r.value.value == names[Strip(Lower(FirstToken(fullName.value).value))]
    ensures r.Ok? && r.value.None? && TruthyStr(fullName) ==>
      Strip(Lower(FirstToken(fullName.value).value)) !in names
  {
    if !TruthyStr(fullName) then Ok(None)
    else
      match FirstToken(fullName.value)
      case Err(e) => Err(e)
      case Ok(first) =>
        var key := Strip(Lower(first));
        if key in names then Ok(Some(names[key])) else Ok(None)
  }

  /** A row of the `students` table as the script selects it. */
  datatype StudentRow = StudentRow(id: string, nombre: Option<string>, genero: Option<string>)

  /** A student whose `genero` is truthy is left alone. */
  predicate HasGender(s: StudentRow) {
    TruthyStr(s.genero)
  }

  /** A queued update: the student, their name and the inferred letter. */
  datatype Update = Update(id: string, nombre: Option<string>, gender: char)

  /** The counters of the analysis and the two lists it builds. */
  datatype Analysis = Analysis(
    alreadySet: nat, male: nat, female: nat, unknown: nat,
    updates: seq<Update>, unknownNames: seq<(string, Option<string>)>)

  /** The lowered first names already listed as unknown. */
  function LoweredFirsts(unknownNames: seq<(string, Option<string>)>): (r: seq<string>)
    ensures |r| == |unknownNames|
    ensures forall k :: 0 <= k < |r| ==> r[k] == Lower(unknownNames[k].0)
  {
    if unknownNames == [] then []
    else LoweredFirsts(unknownNames[..|unknownNames| - 1]) + [Lower(unknownNames[|unknownNames| - 1].0)]
  }

  /** The first name an unknown student is listed under: "N/A" for a falsy name. */
  function UnknownFirst(nombre: Option<string>): Result<string> {
    if TruthyStr(nombre) then FirstToken(nombre.value) else Ok("N/A")
  }

  /** What one student does to the analysis (one loop iteration). */
  function Step(a: Analysis, s: StudentRow, names: NameTable): Result<Analysis> {
    if HasGender(s) then Ok(a.(alreadySet := a.alreadySet + 1))
    else StepOn(a, s, InferGender(names, s.nombre))
  }

  /** The iteration for a student without a gender, once the table lookup has given `inferred`. */
  function StepOn(a: Analysis, s: StudentRow, inferred: Result<Option<char>>): Result<Analysis> {
    match inferred
    case Err(e) => Err(e)
    case Ok(Some(g)) =>
      var u := Update(s.id, s.nombre, g);
      if g == 'M' then Ok(a.(male := a.male + 1, updates := a.updates + [u]))
      else Ok(a.(female := a.female + 1, updates := a.updates + [u]))
    case Ok(None) =>
      match UnknownFirst(s.nombre)
      case Err(e) => Err(e)
      case Ok(first) =>
        var listed := Lower(first) in LoweredFirsts(a.unknownNames);
        Ok(a.(unknown := a.unknown + 1,
              unknownNames := if listed then a.unknownNames else a.unknownNames + [(first, s.nombre)]))
  }

  const NoAnalysis := Analysis(0, 0, 0, 0, [], [])

  /** The analysis of the students in order; the first name that raises stops the script. */
  function Analyze(students: seq<StudentRow>, names: NameTable): Result<Analysis> {
    if students == [] then Ok(NoAnalysis)
    else
      match Analyze(students[..|students| - 1], names)
      case Err(e) => Err(e)
      case Ok(a) => Step(a, students[|students| - 1], names)
  }

  /** The name of a student the analysis raises on: truthy but all whitespace, and no gender set. */
  predicate RaisesOn(s: StudentRow) {
    !HasGender(s) && TruthyStr(s.nombre) && forall i :: 0 <= i < |s.nombre.value| ==> IsSpace(s.nombre.value[i])
  }

  lemma StepRaises(a: Analysis, s: StudentRow, names: NameTable)
    ensures Step(a, s, names).Err? <==> RaisesOn(s)
  {
  }

  /** The analysis raises exactly when some student without a gender has a whitespace-only name. */
  lemma {:induction false} AnalyzeRaises(students: seq<StudentRow>, names: NameTable)
    ensures Analyze(students, names).Err? <==> exists i :: 0 <= i < |students| && RaisesOn(students[i])
  {
    if students != [] {
      var init := students[..|students| - 1];
      var last := students[|students| - 1];
      AnalyzeRaises(init, names);
      if Analyze(init, names).Ok? {
        StepRaises(Analyze(init, names).value, last, names);
      }
      if exists i :: 0 <= i < |init| && RaisesOn(init[i]) {
        var i :| 0 <= i < |init| && RaisesOn(init[i]);
        assert RaisesOn(students[i]);
      }
      if exists i :: 0 <= i < |students| && RaisesOn(students[i]) {
        var i :| 0 <= i < |students| && RaisesOn(students[i]);
        if i < |init| {
          assert RaisesOn(init[i]);
        }
      }
    }
  }

  /**
   * Each student moves exactly one counter: the four counters add up to the
   * number of students, and each inferred student is queued once.
   */
  lemma {:induction false} CountersAddUp(students: seq<StudentRow>, names: NameTable)
    requires Analyze(students, names).Ok?
    ensures var a := Analyze(students, names).value;
      a.alreadySet + a.male + a.female + a.unknown == |students|
      && |a.updates| == a.male + a.female
      && |a.unknownNames| <= a.unknown
  {
    if students != [] {
      var init := students[..|students| - 1];
      CountersAddUp(init, names);
      StepCounters(Analyze(init, names).value, students[|students| - 1], names);
    }
  }

  /** One step moves exactly one counter, queues an update only with a letter, and lists at most one name. */
  lemma StepCounters(a: Analysis, s: StudentRow, names: NameTable)
    requires Step(a, s, names).Ok?
    ensures var b := Step(a, s, names).value;
      b.alreadySet + b.male + b.female + b.unknown == a.alreadySet + a.male + a.female + a.unknown + 1
      && |b.updates| + a.male + a.female == |a.updates| + b.male + b.female
      && |b.unknownNames| + a.unknown <= |a.unknownNames| + b.unknown
  {
    if !HasGender(s) {
      StepOnCounters(a, s, InferGender(names, s.nombre));
    }
  }

  lemma StepOnCounters(a: Analysis, s: StudentRow, inferred: Result<Option<char>>)
    requires StepOn(a, s, inferred).Ok?
    ensures var b := StepOn(a, s, inferred).value;
      b.alreadySet + b.male + b.female + b.unknown == a.alreadySet + a.male + a.female + a.unknown + 1
      && |b.updates| + a.male + a.female == |a.updates| + b.male + b.female
      && |b.unknownNames| + a.unknown <= |a.unknownNames| + b.unknown
  {
  }

  /** `u` is the update queued for `s`: same student, no gender set, and the table's letter. */
  predicate QueuedFor(u: Update, s: StudentRow, names: NameTable) {
    s.id == u.id && s.nombre == u.nombre && !HasGender(s) && InferGender(names, s.nombre) == Ok(Some(u.gender))
  }

  /** Only students without a gender are queued, each with the letter the table gives their first name. */
  lemma {:induction false} QueuedOnlyWithoutGender(students: seq<StudentRow>, names: NameTable)
    requires Analyze(students, names).Ok?
    ensures forall u :: u in Analyze(students, names).value.updates ==> exists s :: s in students && QueuedFor(u, s, names)
  {
    if students != [] {
      var init := students[..|students| - 1];
      QueuedOnlyWithoutGender(init, names);
      forall u | u in Analyze(students, names).value.updates
        ensures exists s :: s in students && QueuedFor(u, s, names)
      {
        StepQueued(Analyze(init, names).value, students[|students| - 1], names);
        if u in Analyze(init, names).value.updates {
          var s :| s in init && QueuedFor(u, s, names);
          assert s in students;
        } else {
          assert students[|students| - 1] in students;
        }
      }
    }
  }

  /** A step queues nothing, or one update for the student it reads. */
  lemma StepQueued(a: Analysis, s: StudentRow, names: NameTable)
    requires Step(a, s, names).Ok?
    ensures forall u :: u in Step(a, s, names).value.updates ==> u in a.updates || QueuedFor(u, s, names)
  {
    if !HasGender(s) {
      StepOnQueued(a, s, InferGender(names, s.nombre));
    }
  }

  lemma StepOnQueued(a: Analysis, s: StudentRow, inferred: Result<Option<char>>)
    requires StepOn(a, s, inferred).Ok?
    ensures forall u :: u in StepOn(a, s, inferred).value.updates ==>
      u in a.updates || (s.id == u.id && s.nombre == u.nombre && inferred == Ok(Some(u.gender)))
  {
  }

  /** No two first names of the unknown list agree once lowered. */
  predicate DistinctIgnoringCase(unknownNames: seq<(string, Option<string>)>) {
    forall i, j :: 0 <= i < j < |unknownNames| ==> Lower(unknownNames[i].0) != Lower(unknownNames[j].0)
  }

  lemma LoweredFirstsAppend(unknownNames: seq<(string, Option<string>)>, x: (string, Option<string>))
    ensures LoweredFirsts(unknownNames + [x]) == LoweredFirsts(unknownNames) + [Lower(x.0)]
  {
    assert (unknownNames + [x])[..|unknownNames|] == unknownNames;
  }

  /** A student is unknown when no gender is set and the table does not know the first name. */
  predicate IsUnknown(s: StudentRow, names: NameTable) {
    !HasGender(s) && InferGender(names, s.nombre) == Ok(None)
  }

  /**
   * One step leaves the unknown list alone or appends a first name not yet
   * listed; an unknown student's first name is listed afterwards.
   */
  lemma StepUnknownNames(a: Analysis, s: StudentRow, names: NameTable)
    requires Step(a, s, names).Ok?
    ensures var b := Step(a, s, names).value;
      b.unknownNames == a.unknownNames
      || (IsUnknown(s, names) && UnknownFirst(s.nombre).Ok?
          && b.unknownNames == a.unknownNames + [(UnknownFirst(s.nombre).value, s.nombre)]
          && Lower(UnknownFirst(s.nombre).value) !in LoweredFirsts(a.unknownNames))
    ensures IsUnknown(s, names) ==>
      UnknownFirst(s.nombre).Ok? && Lower(UnknownFirst(s.nombre).value) in LoweredFirsts(Step(a, s, names).value.unknownNames)
  {
    if IsUnknown(s, names) && UnknownFirst(s.nombre).Ok? {
      LoweredFirstsAppend(a.unknownNames, (UnknownFirst(s.nombre).value, s.nombre));
    }
  }

  /** No two first names of the unknown list agree once lowered. */
  lemma {:induction false} UnknownNamesDistinct(students: seq<StudentRow>, names: NameTable)
    requires Analyze(students, names).Ok?
    ensures DistinctIgnoringCase(Analyze(students, names).value.unknownNames)
  {
    if students != [] {
      var init := students[..|students| - 1];
      UnknownNamesDistinct(init, names);
      var a := Analyze(init, names).value;
      StepUnknownNames(a, students[|students| - 1], names);
    }
  }

  /** Every unknown student's first name is on the unknown list, under the spelling first seen. */
  lemma {:induction false} UnknownNamesComplete(students: seq<StudentRow>, names: NameTable)
    requires Analyze(students, names).Ok?
    ensures forall s :: s in students && IsUnknown(s, names) ==>
      UnknownFirst(s.nombre).Ok? && Lower(UnknownFirst(s.nombre).value) in LoweredFirsts(Analyze(students, names).value.unknownNames)
  {
    if students != [] {
      var init := students[..|students| - 1];
      var last := students[|students| - 1];
      UnknownNamesComplete(init, names);
      var a := Analyze(init, names).value;
      var b := Analyze(students, names).value;
      StepUnknownNames(a, last, names);
      if b.unknownNames != a.unknownNames {
        LoweredFirstsAppend(a.unknownNames, (UnknownFirst(last.nombre).value, last.nombre));
      }
      forall s | s in students && IsUnknown(s, names)
        ensures UnknownFirst(s.nombre).Ok? && Lower(UnknownFirst(s.nombre).value) in LoweredFirsts(b.unknownNames)
      {
        if s != last {
          var k :| 0 <= k < |students| && students[k] == s;
          assert init[k] == s;
        }
      }
    }
  }

  // ----- the writes -----

  /** The database's value for a letter: 'M' is "Masculino", anything else "Femenino". */
  function DbGender(g: char): (v: string)
    ensures v == "Masculino" <==> g == 'M'
    ensures v == "Masculino" || v == "Femenino"
  {
    if g == 'M' then "Masculino" else "Femenino"
  }

  /** The counts of the update phase: writes that succeeded and writes that raised. */
  function Successes(updates: seq<Update>, accepts: (string, string) -> bool): (n: nat)
    ensures n <= |updates|
  {
    if updates == [] then 0
    else
      var u := updates[|updates| - 1];
      Successes(updates[..|updates| - 1], accepts) + if accepts(u.id, DbGender(u.gender)) then 1 else 0
  }

  /** The outcome of `update_student_genders`: the counters and the writes attempted, in order. */
  datatype Outcome = Outcome(analysis: Analysis, writes: seq<(string, string)>, updated: nat, errors: nat)

  /** The analysis loop of `update_student_genders`. */
  method AnalyzeStudents(students: seq<StudentRow>, names: NameTable) returns (r: Result<Analysis>)
    ensures r == Analyze(students, names)
  {
    var a := NoAnalysis;
    var i := 0;
    while i < |students|
      invariant 0 <= i <= |students|
      invariant Analyze(students[..i], names) == Ok(a)
    {
      AnalyzeStep(students, names, i);
      var next := AnalyzeOne(a, students[i], names);
      if next.Err? {
        AnalyzeStops(students, names, i);
        return next;
      }
      a := next.value;
      i := i + 1;
    }
    assert students[..i] == students;
    r := Ok(a);
  }

  /** One iteration of the analysis loop. */
  method AnalyzeOne(a: Analysis, s: StudentRow, names: NameTable) returns (r: Result<Analysis>)
    ensures r == Step(a, s, names)
  {
    if HasGender(s) {
      return Ok(a.(alreadySet := a.alreadySet + 1));
    }
    var inferred := InferGender(names, s.nombre);
    r := RecordInferred(a, s, inferred);
  }

  /** The rest of the iteration once the table lookup has given `inferred`. */
  method RecordInferred(a: Analysis, s: StudentRow, inferred: Result<Option<char>>) returns (r: Result<Analysis>)
    ensures r == StepOn(a, s, inferred)
  {
    if inferred.Err? {
      return Err(inferred.error);
    }
    if inferred.value.Some? {
      var g := inferred.value.value;
      var u := Update(s.id, s.nombre, g);
      if g == 'M' {
        return Ok(a.(male := a.male + 1, updates := a.updates + [u]));
      }
      return Ok(a.(female := a.female + 1, updates := a.updates + [u]));
    }
    var first := UnknownFirst(s.nombre);
    if first.Err? {
      return Err(first.error);
    }
    var listed := Lower(first.value) in LoweredFirsts(a.unknownNames);
    r := Ok(a.(unknown := a.unknown + 1,
               unknownNames := if listed then a.unknownNames else a.unknownNames + [(first.value, s.nombre)]));
  }

  lemma AnalyzeStep(students: seq<StudentRow>, names: NameTable, i: nat)
    requires i < |students| && Analyze(students[..i], names).Ok?
    ensures Analyze(students[..i + 1], names) == Step(Analyze(students[..i], names).value, students[i], names)
  {
    assert students[..i + 1][..i] == students[..i];
  }

  lemma {:induction false} AnalyzeStops(students: seq<StudentRow>, names: NameTable, i: nat)
    requires i < |students| && Analyze(students[..i], names).Ok?
    requires Step(Analyze(students[..i], names).value, students[i], names).Err?
    ensures Analyze(students, names) == Step(Analyze(students[..i], names).value, students[i], names)
    decreases |students| - i
  {
    if i + 1 == |students| {
      assert students[..|students| - 1] == students[..i];
    } else {
      var init := students[..|students| - 1];
      assert init[..i] == students[..i] && init[i] == students[i];
      AnalyzeStops(init, names, i);
    }
  }

  /**
   * `update_student_genders`: the analysis, then, unless it is a dry run, one
   * write per queued update, counting the writes that succeed and those that
   * raise. A dry run writes nothing.
   */
  method UpdateStudentGenders(students: seq<StudentRow>, names: NameTable, dryRun: bool,
                              accepts: (string, string) -> bool) returns (r: Result<Outcome>)
    ensures r.Ok? <==> Analyze(students, names).Ok?
    ensures r.Ok? ==> r.value.analysis == Analyze(students, names).value
    ensures r.Ok? && dryRun ==> r.value.writes == [] && r.value.updated == 0 && r.value.errors == 0
    ensures r.Ok? && !dryRun ==>
      var us := r.value.analysis.updates;
      |r.value.writes| == |us|
      && (forall k :: 0 <= k < |us| ==> r.value.writes[k] == (us[k].id, DbGender(us[k].gender)))
      && r.value.updated == Successes(us, accepts)
      && r.value.updated + r.value.errors == |us|
  {
    var analysis := AnalyzeStudents(students, names);
    if analysis.Err? {
      return Err(analysis.error);
    }
    var writes: seq<(string, string)> := [];
    var updated, errors := 0, 0;
    if !dryRun && analysis.value.updates != [] {
      writes, updated, errors := WriteUpdates(analysis.value.updates, accepts);
    }
    r := Ok(Outcome(analysis.value, writes, updated, errors));
  }

  /** The update phase: one write per queued update, in order, counting successes and failures. */
  method WriteUpdates(updates: seq<Update>, accepts: (string, string) -> bool)
    returns (writes: seq<(string, string)>, updated: nat, errors: nat)
    ensures |writes| == |updates|
    ensures forall k :: 0 <= k < |updates| ==> writes[k] == (updates[k].id, DbGender(updates[k].gender))
    ensures updated == Successes(updates, accepts) && updated + errors == |updates|
  {
    writes, updated, errors := [], 0, 0;
    var i := 0;
    while i < |updates|
      invariant 0 <= i <= |updates|
      invariant |writes| == i
      invariant forall k :: 0 <= k < i ==> writes[k] == (updates[k].id, DbGender(updates[k].gender))
      invariant updated == Successes(updates[..i], accepts) && updated + errors == i
    {
      assert updates[..i + 1][..i] == updates[..i];
      var write := (updates[i].id, DbGender(updates[i].gender));
      writes := writes + [write];
      if accepts(write.0, write.1) {
        updated := updated + 1;
      } else {
        errors := errors + 1;
      }
      i := i + 1;
    }
    assert updates[..i] == updates;
  }
}
