/**
 * The input validators of the backend utilities: student-id format, grade
 * and quintile ranges, risk-level names, string sanitising and the
 * consistency of an attendance record.
 */
module Validators {
  import opened Py
  import opened Text
  import RC = RiskCalculator

  /** `str(v)`. */
  function StrOf(v: Value): string {
    match v
    case VNone => "None"
    case VBool(b) => if b then "True" else "False"
    case VInt(i) => IntToString(i)
    case VFloat(_, repr) => repr
    case VStr(s) => s
    case VOther(_, repr) => repr
  }

  /** `int(v)`; None where Python raises ValueError or TypeError. */
  function IntOf(v: Value): (r: Option<int>)
    ensures v.VInt? ==> r == Some(v.i)
    ensures v.VNone? || v.VOther? ==> r.None?
  {
    match v
    case VNone => None
    case VBool(b) => Some(if b then 1 else 0)
    case VInt(i) => Some(i)
    case VFloat(x, _) => Some(TruncToInt(x))
    case VStr(s) => ParseInt(s)
    case VOther(_, _) => None
  }

  /** `float(v)`; text is read by `parseFloat` (None where Python raises). */
  function FloatOf(v: Value, parseFloat: string -> Option<real>): Option<real> {
    match v
    case VNone => None
    case VBool(b) => Some(if b then 1.0 else 0.0)
    case VInt(i) => Some(i as real)
    case VFloat(x, _) => Some(x)
    case VStr(s) => parseFloat(s)
    case VOther(_, _) => None
  }

  // ----- validate_student_id -----

  /**
   * `re.match(r"^EST\d{3,}$", s)`: "EST", then at least three digits, then
   * the end of the text or a single final newline (which `$` also accepts).
   */
  predicate IdPattern(s: string) {
    |s| >= 6 && s[..3] == "EST"
    && var body := if s[|s| - 1] == '\n' then s[3..|s| - 1] else s[3..];
       |body| >= 3 && AllDigits(body)
  }

  function ValidateStudentId(v: Value): (r: bool)
    ensures r ==> v.VStr? && StartsWith(v.s, "EST") && |v.s| >= 6
    ensures r && v.s[|v.s| - 1] != '\n' ==> AllDigits(v.s[3..])
    ensures !v.VStr? ==> !r
    ensures r <==> v.VStr? && IdPattern(v.s)
  {
    Truthy(v) && v.VStr? && IdPattern(v.s)
  }

  /** The ids the import scripts build, "EST" and the number zero-padded to three digits, are valid. */
  lemma GeneratedIdsAreValid(n: nat)
    ensures ValidateStudentId(VStr("EST" + ZFill(NatToString(n), 3)))
  {
    var d := ZFill(NatToString(n), 3);
    ZFilledDigits(NatToString(n), 3);
    var s := "EST" + d;
    assert s[..3] == "EST" && s[3..] == d;
    assert s[|s| - 1] == d[|d| - 1];
  }

  /** The number in a valid id without a trailing newline reads back with `int()`. */
  lemma ValidIdHasNumber(s: string)
    requires ValidateStudentId(VStr(s)) && s[|s| - 1] != '\n'
    ensures ParseInt(s[3..]).Some? && ParseInt(s[3..]).value >= 0
  {
    var d := s[3..];
    AllDigitsEdgeless(d);
    StripOfEdgeless(d);
  }

  /** `$` accepts one trailing newline. */
  lemma TrailingNewlineAccepted()
    ensures ValidateStudentId(VStr("EST001\n"))
    ensures !ValidateStudentId(VStr("EST01"))
  {
    var s := "EST001\n";
    assert s[..3] == "EST" && s[3..|s| - 1] == "001";
  }

  // ----- validate_grade_value / validate_quintil / validate_risk_level -----

  function ValidateGradeValue(v: Value, parseFloat: string -> Option<real>): (r: bool)
    ensures r <==> FloatOf(v, parseFloat).Some? && 0.0 <= FloatOf(v, parseFloat).value <= 10.0
  {
    match FloatOf(v, parseFloat)
    case None => false
    case Some(x) => 0.0 <= x <= 10.0
  }

  /** Numbers are valid grades exactly on 0..10; None and other objects never are; booleans always are. */
  lemma GradeValueCases(v: Value, parseFloat: string -> Option<real>)
    ensures v.VInt? ==> (ValidateGradeValue(v, parseFloat) <==> 0 <= v.i <= 10)
    ensures v.VFloat? ==> (ValidateGradeValue(v, parseFloat) <==> 0.0 <= v.x <= 10.0)
    ensures v.VBool? ==> ValidateGradeValue(v, parseFloat)
    ensures v.VNone? || v.VOther? ==> !ValidateGradeValue(v, parseFloat)
  {
  }

  function ValidateQuintil(v: Value): (r: bool)
    ensures r <==> IntOf(v).Some? && 1 <= IntOf(v).value <= 5
  {
    match IntOf(v)
    case None => false
    case Some(q) => 1 <= q <= 5
  }

  /** `int()` truncates, so a float is accepted exactly on [1.0, 6.0): 5.9 passes, 0.5 does not. */
  lemma QuintilFloatRange(x: real, repr: string)
    ensures ValidateQuintil(VFloat(x, repr)) <==> 1.0 <= x < 6.0
  {
  }

  /** The decimal text of a number is a valid quintile exactly when the number is 1..5. */
  lemma QuintilText(k: nat)
    ensures ValidateQuintil(VStr(NatToString(k))) <==> 1 <= k <= 5
  {
    var d := NatToString(k);
    DecimalOfNatToString(k);
    AllDigitsEdgeless(d);
    StripOfEdgeless(d);
  }

  function ValidateRiskLevel(v: Value): (r: bool)
    ensures r <==> exists l: RC.RiskLevel :: v == VStr(RC.LevelName(l))
  {
    var ok := v.VStr? && (v.s == "Alto" || v.s == "Medio" || v.s == "Bajo");
    assert v == VStr("Alto") ==> v == VStr(RC.LevelName(RC.Alto));
    assert v == VStr("Medio") ==> v == VStr(RC.LevelName(RC.Medio));
    assert v == VStr("Bajo") ==> v == VStr(RC.LevelName(RC.Bajo));
    ok
  }

  // ----- sanitize_string -----

  const MaxTextLength: nat := 500

  /** `sanitize_string`: "" for a falsy value, else `str(v).strip()[:500]`. */
  function SanitizeString(v: Value): (r: string)
    ensures |r| <= MaxTextLength
    ensures !Truthy(v) ==> r == ""
    ensures Truthy(v) ==> StartsWith(Strip(StrOf(v)), r)
    ensures Truthy(v) && |Strip(StrOf(v))| <= MaxTextLength ==> r == Strip(StrOf(v))
    ensures Truthy(v) && |Strip(StrOf(v))| > MaxTextLength ==> r == Strip(StrOf(v))[..MaxTextLength]
    ensures r != [] ==> !IsSpace(r[0])
  {
    if !Truthy(v) then ""
    else
      var t := Strip(StrOf(v));
      if |t| <= MaxTextLength then t else t[..MaxTextLength]
  }

  lemma StripNoLeading(s: string)
    requires s == [] || !IsSpace(s[0])
    ensures Strip(s) == RStrip(s)
  {
  }

  /**
   * Sanitising the result again only drops the trailing whitespace the cut at
   * 500 characters may have exposed; the text is otherwise unchanged.
   */
  lemma SanitizeTwice(v: Value)
    ensures SanitizeString(VStr(SanitizeString(v))) == RStrip(SanitizeString(v))
  {
    var r := SanitizeString(v);
    if r != "" {
      StripNoLeading(r);
    }
  }

  /** Text that fits in 500 characters is sanitised once and for all. */
  lemma SanitizeIdempotentWhenShort(v: Value)
    requires |Strip(StrOf(v))| <= MaxTextLength
    ensures SanitizeString(VStr(SanitizeString(v))) == SanitizeString(v)
  {
    SanitizeTwice(v);
    var r := SanitizeString(v);
    if Truthy(v) && r != [] {
      assert !IsSpace(r[|r| - 1]);
    }
  }

  // ----- validate_attendance_data -----

  datatype Validation = Validation(valid: bool, message: Option<string>)

  /** The three required keys of the attendance dictionary; None where the key is missing. */
  datatype AttendanceInput = AttendanceInput(total: Option<Value>, justified: Option<Value>, unjustified: Option<Value>)

  const RequiredFields: seq<string> := ["total_inasistencias", "faltas_justificadas", "faltas_injustificadas"]

  function FieldValues(att: AttendanceInput): (vs: seq<Option<Value>>)
    ensures |vs| == |RequiredFields|
  {
    [att.total, att.justified, att.unjustified]
  }

  /** The message for the first problem with one required field, if any. */
  function FieldError(name: string, v: Option<Value>): (m: Option<string>)
    ensures v.None? ==> m == Some("Campo requerido: " + name)
    ensures m.None? <==> v.Some? && IntOf(v.value).Some? && IntOf(v.value).value >= 0
  {
    match v
    case None => Some("Campo requerido: " + name)
    case Some(x) =>
      match IntOf(x)
      case None => Some(name + " debe ser un número entero")
      case Some(n) => if n < 0 then Some(name + " no puede ser negativo") else None
  }

  /** A field that is present and converts to a non-negative int. */
  predicate Convertible(v: Option<Value>) {
    v.Some? && IntOf(v.value).Some? && IntOf(v.value).value >= 0
  }

  /** The first problem among the required fields, in their order. */
  function FirstFieldError(att: AttendanceInput): (m: Option<string>)
    ensures m.None? <==> Convertible(att.total) && Convertible(att.justified) && Convertible(att.unjustified)
  {
    if FieldError(RequiredFields[0], att.total).Some? then FieldError(RequiredFields[0], att.total)
    else if FieldError(RequiredFields[1], att.justified).Some? then FieldError(RequiredFields[1], att.justified)
    else FieldError(RequiredFields[2], att.unjustified)
  }

  /** Three convertible fields pass the field checks. */
  lemma ConvertibleFieldsOk(att: AttendanceInput)
    requires Convertible(att.total) && Convertible(att.justified) && Convertible(att.unjustified)
    ensures FieldsOk(att)
  {
  }

  /** All three fields are present and convert to non-negative ints. */
  predicate FieldsOk(att: AttendanceInput) {
    FirstFieldError(att).None?
  }

  /** Python `a + b` on the values that reach it (ints, bools, floats, strings). */
  function PyAdd(a: Value, b: Value): Result<Value> {
    if a.VStr? && b.VStr? then Ok(VStr(a.s + b.s))
    else if (a.VInt? || a.VBool?) && (b.VInt? || b.VBool?) then Ok(VInt(IntOf(a).value + IntOf(b).value))
    else if IsNumber(a) && IsNumber(b) then Ok(VFloat(NumOf(a) + NumOf(b), ""))
    else Err("TypeError")
  }

  predicate IsNumber(v: Value) { v.VInt? || v.VBool? || v.VFloat? }

  function NumOf(v: Value): real
    requires IsNumber(v)
  {
    match v
    case VInt(i) => i as real
    case VBool(b) => if b then 1.0 else 0.0
    case VFloat(x, _) => x
  }

  /** Python `a == b`: numbers compare by value across int, bool and float; strings by text; mixed kinds differ. */
  predicate PyEq(a: Value, b: Value) {
    if IsNumber(a) && IsNumber(b) then NumOf(a) == NumOf(b)
    else if a.VStr? && b.VStr? then a.s == b.s
    else a == b
  }

  const SumMismatch := "Total de inasistencias debe ser igual a justificadas + injustificadas"

  /**
   * `validate_attendance_data` as written: after checking that each field
   * converts to a non-negative int, it compares the ORIGINAL values with
   * Python `!=` and `+`, so text counts are concatenated and a mix of text
   * and numbers raises TypeError.
   */
  function AttendanceAsWritten(att: AttendanceInput): (r: Result<Validation>)
    ensures !FieldsOk(att) ==> r == Ok(Validation(false, FirstFieldError(att)))
    ensures r == Ok(Validation(true, None)) ==> FieldsOk(att)
  {
    if !FieldsOk(att) then Ok(Validation(false, FirstFieldError(att)))
    else
      match PyAdd(att.justified.value, att.unjustified.value)
      case Err(e) => Err(e)
      case Ok(sum) =>
        if !PyEq(att.total.value, sum) then Ok(Validation(false, Some(SumMismatch)))
        else Ok(Validation(true, None))
  }

  /** The loop over the required fields with early return, then the sum check, as the code runs it. */
  method ValidateAttendanceDataAsWritten(att: AttendanceInput) returns (r: Result<Validation>)
    ensures r == AttendanceAsWritten(att)
  {
    var values := FieldValues(att);
    var i := 0;
    while i < |RequiredFields|
      invariant 0 <= i <= |RequiredFields|
      invariant forall k :: 0 <= k < i ==> Convertible(values[k])
    {
      var field := RequiredFields[i];
      if values[i].None? {
        FirstFieldErrorAt(att, i);
        return Ok(Validation(false, Some("Campo requerido: " + field)));
      }
      var value := IntOf(values[i].value);
      if value.None? {
        FirstFieldErrorAt(att, i);
        return Ok(Validation(false, Some(field + " debe ser un número entero")));
      }
      if value.value < 0 {
        FirstFieldErrorAt(att, i);
        return Ok(Validation(false, Some(field + " no puede ser negativo")));
      }
      i := i + 1;
    }
    assert Convertible(values[0]) && Convertible(values[1]) && Convertible(values[2]);
    ConvertibleFieldsOk(att);
    var sum := PyAdd(att.justified.value, att.unjustified.value);
    if sum.Err? {
      return Err(sum.error);
    }
    if !PyEq(att.total.value, sum.value) {
      return Ok(Validation(false, Some(SumMismatch)));
    }
    return Ok(Validation(true, None));
  }

  /** The first field that does not convert is the one reported. */
  lemma FirstFieldErrorAt(att: AttendanceInput, i: nat)
    requires i < 3 && !Convertible(FieldValues(att)[i])
    requires forall k :: 0 <= k < i ==> Convertible(FieldValues(att)[k])
    ensures AttendanceAsWritten(att) == Ok(Validation(false, FieldError(RequiredFields[i], FieldValues(att)[i])))
  {
    var vs := FieldValues(att);
    assert vs[0] == att.total && vs[1] == att.justified && vs[2] == att.unjustified;
    assert !FieldsOk(att);
    if i == 0 {
      assert FirstFieldError(att) == FieldError(RequiredFields[0], att.total);
    } else if i == 1 {
      assert FirstFieldError(att) == FieldError(RequiredFields[1], att.justified);
    } else {
      assert FirstFieldError(att) == FieldError(RequiredFields[2], att.unjustified);
    }
  }

  /**
   * Text counts whose total is the two digits of the other two, such as
   * "32", "3", "2": the total is the concatenation of the other two texts.
   */
  function ConcatenatedCounts(j: nat, u: nat): (att: AttendanceInput)
    requires 0 < j < 10 && u < 10
    ensures att.justified.Some? && att.unjustified.Some? && att.total.Some?
    ensures att.justified.value.VStr? && att.unjustified.value.VStr? && att.total.value.VStr?
    ensures att.total.value.s == att.justified.value.s + att.unjustified.value.s
  {
    AttendanceInput(Some(VStr([DigitChar(j), DigitChar(u)])), Some(VStr([DigitChar(j)])), Some(VStr([DigitChar(u)])))
  }

  /** Text counts "5", "3", "2", which do add up, fail for the same reason. */
  function SummingTextCounts(): AttendanceInput {
    AttendanceInput(Some(VStr("5")), Some(VStr("3")), Some(VStr("2")))
  }

  // `int()` of the texts the counterexamples use.

  /** `int()` of a text that is exactly the digits of `n`. */
  lemma ParseOneDigit(t: string, n: nat)
    requires n < 10 && t == [DigitChar(n)]
    ensures ParseInt(t) == Some(n)
  {
    ParseDigits(t);
    assert t[..0] == [];
  }

  lemma Parse2() ensures ParseInt("2") == Some(2) {
    ParseOneDigit("2", 2);
  }

  lemma Parse3() ensures ParseInt("3") == Some(3) {
    ParseOneDigit("3", 3);
  }

  lemma Parse5() ensures ParseInt("5") == Some(5) {
    ParseOneDigit("5", 5);
  }

  lemma ParseTwoDigits(t: string, tens: nat, units: nat)
    requires tens < 10 && units < 10 && |t| == 2 && t[0] == DigitChar(tens) && t[1] == DigitChar(units)
    ensures ParseInt(t).Some? && ParseInt(t).value == 10 * tens + units
  {
    TwoDigitsValue(t, tens, units);
    ParseDigits(t);
  }

  lemma TwoDigitsValue(t: string, tens: nat, units: nat)
    requires tens < 10 && units < 10 && |t| == 2 && t[0] == DigitChar(tens) && t[1] == DigitChar(units)
    ensures t != [] && AllDigits(t) && DecimalValue(t) == 10 * tens + units
  {
    DecimalOfTwo(t);
    assert DigitValue(t[0]) == tens && DigitValue(t[1]) == units;
  }

  /** The concatenated counts convert: the total to the two-digit number, the others to their digits. */
  lemma ConcatenatedCountsConvert(j: nat, u: nat)
    requires 0 < j < 10 && u < 10
    ensures FieldsOk(ConcatenatedCounts(j, u))
    ensures var a := ConcatenatedCounts(j, u);
      IntOf(a.total.value).Some? && IntOf(a.total.value).value == 10 * j + u
      && IntOf(a.justified.value) == Some(j) && IntOf(a.unjustified.value) == Some(u)
  {
    var a := ConcatenatedCounts(j, u);
    ParseOneDigit(a.justified.value.s, j);
    ParseOneDigit(a.unjustified.value.s, u);
    ParseTwoDigits(a.total.value.s, j, u);
    ConvertibleFieldsOk(a);
  }

  /**
   * As written, such counts pass although they do not add up (3 + 2 is not
   * 32), because `+` on the texts concatenates them.
   */
  lemma TextCountsConcatenate(j: nat, u: nat)
    requires 0 < j < 10 && u < 10
    ensures AttendanceAsWritten(ConcatenatedCounts(j, u)) == Ok(Validation(true, None))
  {
    var a := ConcatenatedCounts(j, u);
    ConcatenatedCountsConvert(j, u);
    AsWrittenOnTexts(a, a.total.value.s, a.justified.value.s, a.unjustified.value.s);
  }

  /** On text counts that convert, the code as written compares the total with the concatenation of the other two. */
  lemma AsWrittenOnTexts(att: AttendanceInput, total: string, justified: string, unjustified: string)
    requires att == AttendanceInput(Some(VStr(total)), Some(VStr(justified)), Some(VStr(unjustified)))
    requires FieldsOk(att)
    ensures AttendanceAsWritten(att)
      == Ok(if total == justified + unjustified then Validation(true, None) else Validation(false, Some(SumMismatch)))
  {
  }

  /** As written, text counts that do add up are rejected. */
  lemma SummingTextCountsRejected()
    ensures AttendanceAsWritten(SummingTextCounts()) == Ok(Validation(false, Some(SumMismatch)))
  {
    var att := SummingTextCounts();
    Parse2();
    Parse3();
    Parse5();
    ConvertibleFieldsOk(att);
    AsWrittenOnTexts(att, "5", "3", "2");
    assert "3" + "2" != "5";
  }

  /** As written, a text count beside an int count raises TypeError. */
  lemma MixedCountsRaise()
    ensures AttendanceAsWritten(AttendanceInput(Some(VStr("5")), Some(VInt(3)), Some(VStr("2")))).Err?
  {
    Parse2();
    Parse5();
  }

  /**
   * The check the code evidently intends: each field converts to a
   * non-negative int and the converted total equals the converted sum.
   */
  function ValidateAttendance(att: AttendanceInput): (r: Validation)
    ensures r.valid <==>
      FieldsOk(att)
      && IntOf(att.total.value).value == IntOf(att.justified.value).value + IntOf(att.unjustified.value).value
    ensures r.valid <==> r.message.None?
    ensures !FieldsOk(att) ==> r.message == FirstFieldError(att)
  {
    if !FieldsOk(att) then Validation(false, FirstFieldError(att))
    else if IntOf(att.total.value).value != IntOf(att.justified.value).value + IntOf(att.unjustified.value).value
    then Validation(false, Some(SumMismatch))
    else Validation(true, None)
  }

  /** On integer fields the code as written and the intended check agree. */
  lemma AttendanceAgreesOnInts(att: AttendanceInput)
    requires att.total.Some? ==> att.total.value.VInt?
    requires att.justified.Some? ==> att.justified.value.VInt?
    requires att.unjustified.Some? ==> att.unjustified.value.VInt?
    ensures AttendanceAsWritten(att) == Ok(ValidateAttendance(att))
  {
  }

  /** The intended check rejects the concatenated text counts and accepts the summing ones. */
  lemma IntendedCheckOnTextCounts(j: nat, u: nat)
    requires 0 < j < 10 && u < 10
    ensures !ValidateAttendance(ConcatenatedCounts(j, u)).valid
    ensures ValidateAttendance(SummingTextCounts()).valid
  {
    ConcatenatedCountsConvert(j, u);
    Parse2();
    Parse3();
    Parse5();
  }
}
