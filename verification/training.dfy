/**
 * What the two training scripts (the "enhanced" and the "comprehensive" one)
 * share: the same helper functions, the same screening of database students,
 * the same grade gathering and the same derived scores. The only difference
 * between their helpers is how the accented literals are spelled: the
 * comprehensive script writes them as UTF-8 text, the enhanced script as the
 * two characters each accented letter's UTF-8 bytes decode to in Latin-1
 * ("á" becomes "Ã¡"). A `Spelling` carries those literals.
 */
module Training {
  import opened Py
  import opened Text
  import opened Records
  import Ingest
  import MissingSocio

  type Row = Ingest.Row

  // ----- literals -----

  /** The accented literals of one script. */
  datatype Spelling = Spelling(
    mas: string,          // "más" in "3 o más"
    basica: string,       // the "educación básica" level
    superior: string,     // the "educación superior" level
    matematica: string,   // the singular subject name, lower case
    matematicas: string)  // the plural subject name the singular merges into

  /** The comprehensive script's literals. */
  const Accented := Spelling("más", "educación básica", "educación superior", "matemática", "Matemáticas")

  /** The enhanced script's literals. */
  const Misdecoded := Spelling("mÃ¡s", "educaciÃ³n bÃ¡sica", "educaciÃ³n superior", "matemÃ¡tica", "MatemÃ¡ticas")

  // ----- education level and age -----

  /** `EXPECTED_AGE`: the age expected of a student in each grade. */
  const ExpectedAge: map<string, int> := map[
    "1" := 6, "2" := 7, "3" := 8, "4" := 9, "5" := 10,
    "6" := 11, "7" := 12, "8" := 13, "9" := 14, "10" := 15,
    "1BGU" := 16, "2BGU" := 17, "3BGU" := 18]

  datatype Nivel = BasicaElemental | BasicaMedia | BasicaSuperior | Bachillerato | UnknownNivel

  /** `str(grado)` of `student.get('grado', '')`: a missing key is '', NULL prints as 'None'. */
  function GradoText(grado: Field<string>): string {
    match grado
    case Absent => ""
    case Null => "None"
    case Val(s) => s
  }

  /** `get_nivel_educativo`: the level of a grade, Unknown for anything but the thirteen grades. */
  function NivelEducativo(grado: Field<string>): (n: Nivel)
    ensures n == BasicaElemental <==> GradoText(grado) in ["1", "2", "3", "4"]
    ensures n == BasicaMedia <==> GradoText(grado) in ["5", "6", "7"]
    ensures n == BasicaSuperior <==> GradoText(grado) in ["8", "9", "10"]
    ensures n == Bachillerato <==> GradoText(grado) in ["1BGU", "2BGU", "3BGU"]
  {
    var g := GradoText(grado);
    if g in ["1", "2", "3", "4"] then BasicaElemental
    else if g in ["5", "6", "7"] then BasicaMedia
    else if g in ["8", "9", "10"] then BasicaSuperior
    else if g in ["1BGU", "2BGU", "3BGU"] then Bachillerato
    else UnknownNivel
  }

  /** A grade has a known level exactly when it has an expected age. */
  lemma KnownLevelIffExpectedAge(grado: Field<string>)
    ensures NivelEducativo(grado) != UnknownNivel <==> GradoText(grado) in ExpectedAge
  {
    var g := GradoText(grado);
    assert ExpectedAge.Keys == {"1", "2", "3", "4", "5", "6", "7", "8", "9", "10", "1BGU", "2BGU", "3BGU"};
    if g in ExpectedAge {
      assert g in ["1", "2", "3", "4"] || g in ["5", "6", "7"] || g in ["8", "9", "10"] || g in ["1BGU", "2BGU", "3BGU"];
    }
  }

  datatype AgeStatus = Young | Normal | Old | UnknownAge

  /** `not edad`: a missing, NULL or zero age. */
  predicate NoAge(edad: Field<int>) {
    !edad.Val? || edad.v == 0
  }

  /**
   * `get_age_grade_status`: unknown without an age or a grade with an expected
   * age; otherwise young more than one year below the expected age, old more
   * than one year above it, normal in between.
   */
  function AgeGradeStatus(edad: Field<int>, grado: Field<string>): (r: AgeStatus)
    ensures r == UnknownAge <==> NoAge(edad) || GradoText(grado) !in ExpectedAge
    ensures r == Young <==> !NoAge(edad) && GradoText(grado) in ExpectedAge && edad.v - ExpectedAge[GradoText(grado)] < -1
    ensures r == Old <==> !NoAge(edad) && GradoText(grado) in ExpectedAge && edad.v - ExpectedAge[GradoText(grado)] > 1
  {
    var g := GradoText(grado);
    if NoAge(edad) || !TruthyStr(GetOpt(grado)) || g !in ExpectedAge then UnknownAge
    else
      var diff := edad.v - ExpectedAge[g];
      if diff < -1 then Young else if diff > 1 then Old else Normal
  }

  /** A student whose age status is known has a known education level too. */
  lemma KnownAgeStatusHasKnownLevel(edad: Field<int>, grado: Field<string>)
    requires AgeGradeStatus(edad, grado) != UnknownAge
    ensures NivelEducativo(grado) != UnknownNivel
  {
    KnownLevelIffExpectedAge(grado);
  }

  // ----- cell parsers -----

  /** `pd.isna(value) or value == ''`. */
  predicate Blank(c: Cell) {
    c.NaN? || c == Str("")
  }

  /** `parse_si_no`: 1 exactly when the stripped, upper-cased text is "SI". */
  function ParseSiNo(c: Cell): (r: nat)
    ensures r <= 1
    ensures r == 1 <==> !c.NaN? && Upper(Strip(CellText(c))) == "SI"
  {
    if Blank(c) then 0
    else if Upper(Strip(CellText(c))) == "SI" then 1
    else 0
  }

  /** Upper-casing gives "SI" only from one of the four casings of "si". */
  lemma UpperSi(s: string)
    requires Upper(s) == "SI"
    ensures Lower(s) == "si"
  {
    assert |s| == 2;
    assert Upper(s) == [UpperChar(s[0]), UpperChar(s[1])];
    assert Lower(s) == [LowerChar(s[0]), LowerChar(s[1])];
  }

  /** Every answer `parse_si_no` reads as yes is a yes for the household import too. */
  lemma SiNoStricterThanYesNo(c: Cell)
    ensures ParseSiNo(c) == 1 ==> MissingSocio.ParseYesNo(c) == Some(true)
  {
    if ParseSiNo(c) == 1 {
      UpperSi(Strip(CellText(c)));
    }
  }

  /** The converse fails: "sí", with its accent, is a yes for the household import and a no here. */
  lemma AccentedSiIsNo(s: string)
    requires |s| == 2 && s[0] == 's' && s[1] == '\U{ED}'
    ensures ParseSiNo(Str(s)) == 0 && MissingSocio.ParseYesNo(Str(s)) == Some(true)
  {
    assert !IsSpace(s[0]) && !IsSpace(s[1]);
    StripOfEdgeless(s);
    AccentedSiUpper(s);
    AccentedSiLower(s);
  }

  /** Upper-cased, the accented "sí" keeps its accent. */
  lemma AccentedSiUpper(s: string)
    requires |s| == 2 && s[1] == '\U{ED}'
    ensures Upper(s) != "SI"
  {
    assert Upper(s)[1] == UpperChar(s[1]) == '\U{CD}';
  }

  /** The accented "sí" is already lower case, and one of the household import's yes answers. */
  lemma AccentedSiLower(s: string)
    requires |s| == 2 && s[0] == 's' && s[1] == '\U{ED}'
    ensures Lower(s) in MissingSocio.YesAnswers
  {
    assert IsLowered(s) by {
      assert !IsUpperLetter(s[0]) && !IsUpperLetter(s[1]);
    }
    LowerOfLowered(s);
    assert s == MissingSocio.YesAnswers[1];
  }

  /** The text of the "three or more" answer in a script's spelling. */
  function ThreeOrMore(sp: Spelling): string { "3 o " + sp.mas }

  /** The texts `parse_count` reads as four: either count of "or more", in the script's spelling or without the accent. */
  predicate FourOrMore(v: string, sp: Spelling) {
    Contains(v, ThreeOrMore(sp)) || Contains(v, "4 o " + sp.mas) || Contains(v, "4 o mas")
  }

  /**
   * `parse_count`: a blank cell is 0; a text containing an "or more" answer is
   * 4; otherwise `int()` of the stripped text, or 0 when that raises.
   */
  function ParseCount(c: Cell, sp: Spelling): (n: int)
    ensures Blank(c) ==> n == 0
    ensures !Blank(c) && FourOrMore(Strip(CellText(c)), sp) ==> n == 4
    ensures !Blank(c) && !FourOrMore(Strip(CellText(c)), sp) ==>
      n == (if ParseInt(Strip(CellText(c))).Some? then ParseInt(Strip(CellText(c))).value else 0)
  {
    if Blank(c) then 0
    else
      var v := Strip(CellText(c));
      if FourOrMore(v, sp) then 4
      else match ParseInt(v)
        case Some(i) => i
        case None => 0
  }

  /**
   * `parse_bathrooms`: the first of "No tiene", "3 o más", a '2', a '1' found
   * in the stripped text decides (0, 3, 2, 1); blank and anything else is 1.
   */
  function ParseBathrooms(c: Cell, sp: Spelling): (n: int)
    ensures 0 <= n <= 3
    ensures Blank(c) ==> n == 1
    ensures !Blank(c) ==>
      var v := Strip(CellText(c));
      (n == 0 <==> Contains(v, "No tiene"))
      && (n == 3 <==> !Contains(v, "No tiene") && Contains(v, ThreeOrMore(sp)))
      && (n == 2 <==> !Contains(v, "No tiene") && !Contains(v, ThreeOrMore(sp)) && Contains(v, "2"))
  {
    if Blank(c) then 1
    else
      var v := Strip(CellText(c));
      if Contains(v, "No tiene") then 0
      else if Contains(v, ThreeOrMore(sp)) then 3
      else if Contains(v, "2") then 2
      else if Contains(v, "1") then 1
      else 1
  }

  // ----- education level of the representative -----

  /** The `mapping` of `parse_education_level`, in its order: lower-case text to level. */
  function EducationLevels(sp: Spelling): seq<(string, nat)> {
    [("sin estudios", 0), ("ninguno", 0),
     ("primaria", 1), ("primaria completa", 1), (sp.basica, 1),
     ("secundaria incompleta", 2),
     ("secundaria", 3), ("secundaria completa", 3), ("bachillerato", 3),
     ("superior", 4), (sp.superior, 4), ("tercer nivel", 4),
     ("postgrado", 5), ("cuarto nivel", 5)]
  }

  /** The level of the first entry whose key, seen through `key`, is `v`. */
  function LevelOf(table: seq<(string, nat)>, v: string, lowerKeys: bool): (r: Option<nat>)
    ensures r.Some? ==> exists i :: 0 <= i < |table| && r.value == table[i].1
    ensures r.None? <==> forall i :: 0 <= i < |table| ==> KeyText(table[i].0, lowerKeys) != v
  {
    if table == [] then None
    else if KeyText(table[0].0, lowerKeys) == v then Some(table[0].1)
    else
      var r := LevelOf(table[1..], v, lowerKeys);
      assert r.Some? ==> exists i :: 0 <= i < |table| && r.value == table[i].1 by {
        if r.Some? {
          var i :| 0 <= i < |table[1..]| && r.value == table[1..][i].1;
          assert table[i + 1].1 == r.value;
        }
      }
      r
  }

  /** A key as written, or lower-cased. */
  function KeyText(k: string, lowerKeys: bool): string {
    if lowerKeys then Lower(k) else k
  }

  lemma EducationLevelsAtMostFive(sp: Spelling)
    ensures forall i :: 0 <= i < |EducationLevels(sp)| ==> EducationLevels(sp)[i].1 <= 5
  {
  }

  /** `str(value).strip().lower()`, the text looked up in the mapping. */
  function LevelText(value: string): string {
    Lower(Strip(value))
  }

  /**
   * `parse_education_level`, as written: the level the mapping gives the
   * stripped, lower-cased text; 2 for an empty or unlisted text.
   */
  function ParseEducationLevel(value: string, sp: Spelling): (n: nat)
    ensures n <= 5
    ensures value == "" ==> n == 2
    ensures value != "" ==> n == (match LevelOf(EducationLevels(sp), LevelText(value), false) case Some(l) => l case None => 2)
  {
    EducationLevelsAtMostFive(sp);
    if value == "" then 2
    else match LevelOf(EducationLevels(sp), LevelText(value), false)
      case Some(l) => l
      case None => 2
  }

  /**
   * `parse_education_level` as evidently intended: the stripped, lower-cased
   * text is compared with the lower-cased keys, so that a key written with a
   * capital letter can still be found.
   */
  function ParseEducationLevelLowered(value: string, sp: Spelling): (n: nat)
    ensures n <= 5
    ensures value == "" ==> n == 2
    ensures value != "" ==> n == (match LevelOf(EducationLevels(sp), LevelText(value), true) case Some(l) => l case None => 2)
  {
    EducationLevelsAtMostFive(sp);
    if value == "" then 2
    else match LevelOf(EducationLevels(sp), LevelText(value), true)
      case Some(l) => l
      case None => 2
  }

  /** A text that `lower()` leaves unchanged, checked one character at a time. */
  lemma LoweredKey(k: string)
    requires forall i :: 0 <= i < |k| ==> !IsUpperLetter(k[i])
    ensures Lower(k) == k
  {
    LowerOfLowered(k);
  }

  /** When every key is already lower case, lower-casing the keys changes no lookup. */
  lemma {:induction false} LowerKeysOfLoweredTable(table: seq<(string, nat)>, v: string)
    requires forall i :: 0 <= i < |table| ==> IsLowered(table[i].0)
    ensures LevelOf(table, v, true) == LevelOf(table, v, false)
  {
    if table != [] {
      LowerOfLowered(table[0].0);
      LowerKeysOfLoweredTable(table[1..], v);
    }
  }

  /** With a lower-case text, a key that is not lower case can only be found once lower-cased. */
  lemma {:induction false} LowerKeysAgreeOnOthers(table: seq<(string, nat)>, v: string)
    requires IsLowered(v)
    requires forall i :: 0 <= i < |table| ==> IsLowered(table[i].0) || Lower(table[i].0) != v
    ensures LevelOf(table, v, true) == LevelOf(table, v, false)
  {
    if table != [] {
      var k := table[0].0;
      if IsLowered(k) {
        LowerOfLowered(k);
      } else {
        assert Lower(k) != v;
        assert k != v;
      }
      LowerKeysAgreeOnOthers(table[1..], v);
    }
  }

  /** The level of the first entry whose key, seen through `key`, is `v`, when entry `i` is that entry. */
  lemma {:induction false} LevelOfFirst(table: seq<(string, nat)>, v: string, lowerKeys: bool, i: nat)
    requires i < |table| && KeyText(table[i].0, lowerKeys) == v
    requires forall j :: 0 <= j < i ==> KeyText(table[j].0, lowerKeys) != v
    ensures LevelOf(table, v, lowerKeys) == Some(table[i].1)
  {
    if i > 0 {
      LevelOfFirst(table[1..], v, lowerKeys, i - 1);
    }
  }

  // ----- subject names -----

  /**
   * `normalize_subject`, as written: a falsy name is None; otherwise the name
   * is stripped, and a name whose lower-cased form is one of the two singular
   * spellings becomes the plural.
   */
  function NormalizeSubject(materia: Field<string>, sp: Spelling): (r: Option<string>)
    ensures !TruthyStr(GetOpt(materia)) ==> r.None?
    ensures TruthyStr(GetOpt(materia)) ==> r.Some?
    ensures TruthyStr(GetOpt(materia)) && Lower(Strip(materia.v)) in [sp.matematica, "matematica"] ==> r == Some(sp.matematicas)
    ensures TruthyStr(GetOpt(materia)) && Lower(Strip(materia.v)) !in [sp.matematica, "matematica"] ==> r == Some(Strip(materia.v))
  {
    if !TruthyStr(GetOpt(materia)) then None
    else
      var m := Strip(materia.v);
      if Lower(m) in [sp.matematica, "matematica"] then Some(sp.matematicas) else Some(m)
  }

  /**
   * `normalize_subject` as evidently intended: the lower-cased name is
   * compared with the lower-cased singular spelling.
   */
  function NormalizeSubjectLowered(materia: Field<string>, sp: Spelling): (r: Option<string>)
    ensures r.None? <==> !TruthyStr(GetOpt(materia))
    ensures r.Some? && Lower(Strip(materia.v)) in [Lower(sp.matematica), "matematica"] ==> r.value == sp.matematicas
    ensures r.Some? && Lower(Strip(materia.v)) !in [Lower(sp.matematica), "matematica"] ==> r.value == Strip(materia.v)
  {
    if !TruthyStr(GetOpt(materia)) then None
    else
      var m := Strip(materia.v);
      if Lower(m) in [Lower(sp.matematica), "matematica"] then Some(sp.matematicas) else Some(m)
  }

  /** Every capitalisation of the singular, with or without surrounding blanks, merges into the plural. */
  lemma LoweredMergesSingular(s: string, sp: Spelling)
    requires Lower(Strip(s)) == Lower(sp.matematica)
    requires Strip(s) != []
    ensures NormalizeSubjectLowered(Val(s), sp) == Some(sp.matematicas)
  {
  }

  /** For a script whose singular spelling is already lower case, the intended reading is the written one. */
  lemma LoweredAgreesWhenSpelledLowerCase(materia: Field<string>, sp: Spelling)
    requires IsLowered(sp.matematica)
    ensures NormalizeSubjectLowered(materia, sp) == NormalizeSubject(materia, sp)
  {
    LowerOfLowered(sp.matematica);
  }

  /** The comprehensive script's singular subject name is lower case. */
  lemma AccentedSubjectIsLowerCase()
    ensures IsLowered(Accented.matematica)
  {
  }

  lemma LowerCaseKeysA()
    ensures IsLowered("sin estudios") && IsLowered("ninguno") && IsLowered("primaria")
    ensures IsLowered("primaria completa") && IsLowered("educación básica")
  {
  }

  lemma LowerCaseKeysB()
    ensures IsLowered("secundaria incompleta") && IsLowered("secundaria") && IsLowered("secundaria completa")
    ensures IsLowered("bachillerato") && IsLowered("superior")
  {
  }

  lemma LowerCaseKeysC()
    ensures IsLowered("educación superior") && IsLowered("tercer nivel")
    ensures IsLowered("postgrado") && IsLowered("cuarto nivel")
  {
  }

  /** The comprehensive script's level keys are all lower case. */
  lemma AccentedLevelsAreLowerCase()
    ensures forall i :: 0 <= i < |EducationLevels(Accented)| ==> IsLowered(EducationLevels(Accented)[i].0)
  {
    LowerCaseKeysA();
    LowerCaseKeysB();
    LowerCaseKeysC();
  }

  // ----- student ids and sheet rows -----

  /**
   * The student number of a database id: ids that do not start with "EST" or
   * whose remainder, with every "EST" removed, is not an integer are skipped
   * (None); a NULL id raises.
   */
  function StudentNumber(id: Field<string>): (r: Result<Option<int>>)
    ensures r.Err? <==> id.Null?
    ensures r.Ok? && r.value.Some? ==> id.Val? && StartsWith(id.v, "EST") && ParseInt(ReplaceAll(id.v, "EST", "")) == r.value
    ensures id.Val? && StartsWith(id.v, "EST") && ParseInt(ReplaceAll(id.v, "EST", "")).Some? ==> r == Ok(ParseInt(ReplaceAll(id.v, "EST", "")))
  {
    match id
    case Null => Err("AttributeError")
    case Absent => Ok(None)
    case Val(s) =>
      if !StartsWith(s, "EST") then Ok(None)
      else Ok(ParseInt(ReplaceAll(s, "EST", "")))
  }

  /** Text without an 'E' has no "EST" to replace. */
  lemma {:induction false} ReplaceAbsentCode(s: string)
    requires 'E' !in s
    ensures ReplaceAll(s, "EST", "") == s
    decreases |s|
  {
    if |s| >= 3 {
      assert s[..3] != "EST" by { assert s[0] != 'E'; }
      ReplaceAbsentCode(s[1..]);
      assert s == [s[0]] + s[1..];
    }
  }

  /** The code an import gives student number `n` reads back as `n`. */
  lemma ImportedCodesReadBack(n: nat)
    ensures StudentNumber(Val(Ingest.StudentCode(Int(n)))) == Ok(Some(n))
  {
    var code := Ingest.StudentCode(Int(n));
    CodeOfNumber(n);
    ReplaceCodePrefix(code);
  }

  /** The code of a number is "EST" and digits (so no 'E') that read back as the number. */
  lemma CodeOfNumber(n: nat)
    ensures var code := Ingest.StudentCode(Int(n));
      |code| >= 3 && code[..3] == "EST" && 'E' !in code[3..] && ParseInt(code[3..]) == Some(n)
  {
    var code := Ingest.StudentCode(Int(n));
    var text := NatToString(n);
    assert code[3..] == ZFill(text, 3) by {
      assert CellText(Int(n)) == text;
    }
    assert 'E' !in code[3..] by {
      ZFilledDigits(text, 3);
      assert forall i :: 0 <= i < |code[3..]| ==> IsDigit(code[3..][i]);
    }
    Ingest.StudentCodeRoundTrip(n);
  }

  /** Replacing "EST" in "EST" followed by text without an 'E' leaves that text. */
  lemma ReplaceCodePrefix(code: string)
    requires |code| >= 3 && code[..3] == "EST" && 'E' !in code[3..]
    ensures ReplaceAll(code, "EST", "") == code[3..]
  {
    ReplaceAbsentCode(code[3..]);
  }

  /** The sheet row's `ID` equals the number, as pandas compares an int or float column with an int. */
  predicate IdIs(row: Row, n: int) {
    var c := Ingest.At(row, "ID");
    c == Int(n) || (c.Float? && c.x == n as real)
  }

  /** `df[df['ID'] == num_id].iloc[0]` when that selection is not empty. */
  function RowFor(sheet: seq<Row>, n: int): (r: Option<Row>)
    ensures r.Some? ==> r.value in sheet && IdIs(r.value, n)
    ensures r.None? <==> forall i :: 0 <= i < |sheet| ==> !IdIs(sheet[i], n)
    ensures r.Some? ==> exists i :: 0 <= i < |sheet| && sheet[i] == r.value && forall j :: 0 <= j < i ==> !IdIs(sheet[j], n)
  {
    if sheet == [] then None
    else if IdIs(sheet[0], n) then Some(sheet[0])
    else
      var r := RowFor(sheet[1..], n);
      assert r.Some? ==> exists i :: 0 <= i < |sheet| && sheet[i] == r.value && forall j :: 0 <= j < i ==> !IdIs(sheet[j], n) by {
        if r.Some? {
          var i :| 0 <= i < |sheet[1..]| && sheet[1..][i] == r.value && forall j :: 0 <= j < i ==> !IdIs(sheet[1..][j], n);
          assert sheet[i + 1] == r.value;
          forall j | 0 <= j < i + 1 ensures !IdIs(sheet[j], n) {
            if j > 0 { assert sheet[j] == sheet[1..][j - 1]; }
          }
        }
      }
      r
  }

  /** The five sheets both scripts join with the database students. */
  datatype Sheets = Sheets(firstPage: seq<Row>, house: seq<Row>, habit: seq<Row>, parent: seq<Row>, economic: seq<Row>)

  /** `row.get(col)` passed to a parser: a missing column is a missing value. */
  function SheetCell(row: Option<Row>, col: string): Cell
    requires row.Some?
  {
    Ingest.At(row.value, col)
  }

  /** `str(row.get(col, default))`: the cell's text, or the default when the column is missing. */
  function TextOr(row: Row, col: string, default: string): string {
    if col in row then CellText(row[col]) else default
  }

  // ----- quintil -----

  /**
   * The quintil: the first-page sheet's when the student has a row there with
   * one, otherwise the database's (3 when the key is missing); a missing value
   * is 3; then `int()`, which raises on text that is not an integer.
   */
  function Quintil(fp: Option<Row>, db: Field<int>): (r: Result<int>)
    ensures fp.Some? && !Ingest.At(fp.value, "Quintil").NaN? ==> r == Ingest.IntOfCell(fp.value["Quintil"])
    ensures (fp.None? || Ingest.At(fp.value, "Quintil").NaN?) ==> r == Ok(if db.Val? then db.v else 3)
  {
    var fromDb := match db case Absent => Int(3) case Null => NaN case Val(q) => Int(q);
    var c := if fp.Some? && !Ingest.At(fp.value, "Quintil").NaN? then fp.value["Quintil"] else fromDb;
    Ingest.IntOfCell(if c.NaN? then Int(3) else c)
  }

  // ----- derived scores -----

  /** `tech_score`: the internet, desktop and laptop answers of the house sheet; 0 without a house row. */
  function TechScore(house: Option<Row>): (r: nat)
    ensures r <= 3
    ensures house.None? ==> r == 0
  {
    if house.None? then 0
    else ParseSiNo(SheetCell(house, "Internet")) + ParseSiNo(SheetCell(house, "Computadora")) + ParseSiNo(SheetCell(house, "Laptop"))
  }

  /** The vehicle count of the habit sheet; 0 without a habit row. */
  function Vehicles(habit: Option<Row>, sp: Spelling): int {
    if habit.None? then 0 else ParseCount(SheetCell(habit, "Vehiculos"), sp)
  }

  /** `cuartos_bano`: the parsed bathroom answer, 1 without a house row. */
  function Bathrooms(house: Option<Row>, sp: Spelling): (n: int)
    ensures 0 <= n <= 3
    ensures house.None? ==> n == 1
  {
    if house.None? then 1 else ParseBathrooms(SheetCell(house, "N_banos"), sp)
  }

  /** `edad_representante`: the parent sheet's age when there is one, else 35; then `int()`. */
  function ParentAge(parent: Option<Row>): (r: Result<int>)
    ensures parent.None? ==> r == Ok(35)
    ensures parent.Some? && Ingest.At(parent.value, "Edad").NaN? ==> r == Ok(35)
  {
    if parent.Some? && !Ingest.At(parent.value, "Edad").NaN? then Ingest.IntOfCell(parent.value["Edad"]) else Ok(35)
  }

  /**
   * `asset_score`: telephone, stove, fridge, washer and stereo answers plus one
   * for a vehicle; without a habit row the defaults give 3.
   */
  function AssetScore(habit: Option<Row>, sp: Spelling): (r: nat)
    ensures r <= 6
    ensures habit.None? ==> r == 3
  {
    var vehicle := if Vehicles(habit, sp) > 0 then 1 else 0;
    if habit.None? then 0 + 1 + 1 + 1 + 0 + vehicle
    else
      (ParseSiNo(SheetCell(habit, "Telefono_convencional")) + ParseSiNo(SheetCell(habit, "Cocina_horno"))
       + ParseSiNo(SheetCell(habit, "Refrigeradora")) + ParseSiNo(SheetCell(habit, "Lavadora"))
       + ParseSiNo(SheetCell(habit, "Equipo de sonido")) + vehicle)
  }

  /** `digital_score`: internet, e-mail and social-network use; without a habit row the defaults give 3. */
  function DigitalScore(habit: Option<Row>): (r: nat)
    ensures r <= 3
    ensures habit.None? ==> r == 3
  {
    if habit.None? then 1 + 1 + 1
    else ParseSiNo(SheetCell(habit, "Uso_Internet")) + ParseSiNo(SheetCell(habit, "Uso_correo")) + ParseSiNo(SheetCell(habit, "Red_social"))
  }

  /** `genero`: the database value, or "Masculino" when it is missing or empty. */
  function Genero(s: Student): (g: string)
    ensures g != ""
  {
    if s.genero.Val? && s.genero.v != "" then s.genero.v else "Masculino"
  }

  // ----- grades -----

  /** The grades of a student's rows: every `nota` that is not None, in order. */
  function GradesOf(rows: seq<GradeRecord>): (gs: seq<real>)
    ensures |gs| <= |rows|
    ensures gs == [] <==> forall i :: 0 <= i < |rows| ==> !rows[i].nota.Val?
  {
    if rows == [] then []
    else
      var last := rows[|rows| - 1];
      var init := GradesOf(rows[..|rows| - 1]);
      var r := init + if last.nota.Val? then [last.nota.v] else [];
      assert forall i :: 0 <= i < |rows| - 1 ==> rows[..|rows| - 1][i] == rows[i];
      r
  }

  /** The subject a row files its grade under: only rows with a grade and a non-empty name, normalised as written. */
  function SubjectKey(row: GradeRecord, sp: Spelling): (k: Option<string>)
    ensures k.Some? <==> row.nota.Val? && NormalizeSubject(row.materia, sp).Some? && NormalizeSubject(row.materia, sp).value != ""
    ensures k.Some? ==> k == NormalizeSubject(row.materia, sp)
  {
    if !row.nota.Val? then None
    else match NormalizeSubject(row.materia, sp)
      case Some(m) => if m != "" then Some(m) else None
      case None => None
  }

  /** `d.setdefault(k, []).append(x)`. */
  function Append(d: map<string, seq<real>>, k: string, x: real): (r: map<string, seq<real>>)
    ensures r.Keys == d.Keys + {k}
    ensures r[k] == (if k in d then d[k] else []) + [x]
    ensures forall j :: j in d && j != k ==> r[j] == d[j]
  {
    d[k := (if k in d then d[k] else []) + [x]]
  }

  /** The per-subject grade lists after filing the rows' grades into `init`, in order. */
  function SubjectGrades(rows: seq<GradeRecord>, sp: Spelling, init: map<string, seq<real>>): map<string, seq<real>> {
    if rows == [] then init
    else
      var d := SubjectGrades(rows[..|rows| - 1], sp, init);
      var last := rows[|rows| - 1];
      match SubjectKey(last, sp)
      case Some(k) => Append(d, k, last.nota.v)
      case None => d
  }

  /** What one row files under subject `k`: its grade when it is filed there, else nothing. */
  function FiledBy(row: GradeRecord, sp: Spelling, k: string): seq<real> {
    if SubjectKey(row, sp) == Some(k) then [row.nota.v] else []
  }

  /** The grades of the rows filed under subject `k`, in row order. */
  function FiledUnder(rows: seq<GradeRecord>, sp: Spelling, k: string): seq<real> {
    if rows == [] then []
    else FiledUnder(rows[..|rows| - 1], sp, k) + FiledBy(rows[|rows| - 1], sp, k)
  }

  /**
   * Filing keeps what `init` held under a subject and appends, in row order,
   * exactly the grades of the rows filed under it.
   */
  lemma {:induction false} SubjectGradesValues(rows: seq<GradeRecord>, sp: Spelling, init: map<string, seq<real>>, k: string)
    requires k in SubjectGrades(rows, sp, init)
    ensures SubjectGrades(rows, sp, init)[k] == (if k in init then init[k] else []) + FiledUnder(rows, sp, k)
  {
    if rows != [] {
      var prefix := rows[..|rows| - 1];
      FilingStep(rows, sp, init, k);
      if k in SubjectGrades(prefix, sp, init) {
        SubjectGradesValues(prefix, sp, init, k);
      } else {
        assert k !in init && Some(k) !in RowKeys(prefix, sp) by {
          SubjectGradesKeys(prefix, sp, init);
        }
        FiledUnderEmpty(prefix, sp, k);
      }
    }
  }

  /** Filing the last row appends, under subject `k`, what that row files there. */
  lemma FilingStep(rows: seq<GradeRecord>, sp: Spelling, init: map<string, seq<real>>, k: string)
    requires rows != [] && k in SubjectGrades(rows, sp, init)
    ensures var d := SubjectGrades(rows[..|rows| - 1], sp, init);
      SubjectGrades(rows, sp, init)[k] == (if k in d then d[k] else []) + FiledBy(rows[|rows| - 1], sp, k)
  {
    var prefix, last := rows[..|rows| - 1], rows[|rows| - 1];
    var d := SubjectGrades(prefix, sp, init);
    if SubjectKey(last, sp).Some? {
      assert SubjectGrades(rows, sp, init) == Append(d, SubjectKey(last, sp).value, last.nota.v);
    }
  }

  /** A subject no row is filed under has nothing filed under it. */
  lemma {:induction false} FiledUnderEmpty(rows: seq<GradeRecord>, sp: Spelling, k: string)
    requires Some(k) !in RowKeys(rows, sp)
    ensures FiledUnder(rows, sp, k) == []
  {
    if rows != [] {
      var prefix := rows[..|rows| - 1];
      assert RowKeys(prefix, sp) == RowKeys(rows, sp)[..|prefix|];
      FiledUnderEmpty(prefix, sp, k);
    }
  }

  /** The subject key of each row, in order. */
  function RowKeys(rows: seq<GradeRecord>, sp: Spelling): (ks: seq<Option<string>>)
    ensures |ks| == |rows|
    ensures forall i :: 0 <= i < |rows| ==> ks[i] == SubjectKey(rows[i], sp)
  {
    if rows == [] then []
    else
      var init := rows[..|rows| - 1];
      var ks := RowKeys(init, sp) + [SubjectKey(rows[|rows| - 1], sp)];
      assert forall i :: 0 <= i < |init| ==> rows[i] == init[i];
      ks
  }

  /** The subjects of the rows: the keys `subject_grades` ends up with. */
  lemma {:induction false} SubjectGradesKeys(rows: seq<GradeRecord>, sp: Spelling, init: map<string, seq<real>>)
    ensures forall k :: k in SubjectGrades(rows, sp, init) <==> k in init || Some(k) in RowKeys(rows, sp)
  {
    if rows != [] {
      SubjectGradesKeys(rows[..|rows| - 1], sp, init);
      assert RowKeys(rows, sp) == RowKeys(rows[..|rows| - 1], sp) + [SubjectKey(rows[|rows| - 1], sp)];
    }
  }

  /** Filing the rows of two lists one after the other is filing their concatenation. */
  lemma {:induction false} SubjectGradesAppend(a: seq<GradeRecord>, b: seq<GradeRecord>, sp: Spelling, init: map<string, seq<real>>)
    ensures SubjectGrades(a + b, sp, init) == SubjectGrades(b, sp, SubjectGrades(a, sp, init))
  {
    if b == [] {
      assert a + b == a;
    } else {
      assert (a + b)[..|a + b| - 1] == a + b[..|b| - 1];
      assert (a + b)[|a + b| - 1] == b[|b| - 1];
      SubjectGradesAppend(a, b[..|b| - 1], sp, init);
    }
  }

  lemma GatherStep(rows: seq<GradeRecord>, i: nat, sp: Spelling, init: map<string, seq<real>>)
    requires i < |rows|
    ensures GradesOf(rows[..i + 1]) == GradesOf(rows[..i]) + if rows[i].nota.Val? then [rows[i].nota.v] else []
    ensures SubjectGrades(rows[..i + 1], sp, init) ==
      match SubjectKey(rows[i], sp)
      case Some(k) => Append(SubjectGrades(rows[..i], sp, init), k, rows[i].nota.v)
      case None => SubjectGrades(rows[..i], sp, init)
  {
    assert rows[..i + 1][..i] == rows[..i];
  }

  /**
   * The grade loop of the comprehensive script: every grade that is not None,
   * and the grades of each named subject.
   */
  method GatherGrades(rows: seq<GradeRecord>, sp: Spelling) returns (grades: seq<real>, subjectGrades: map<string, seq<real>>)
    ensures grades == GradesOf(rows)
    ensures subjectGrades == SubjectGrades(rows, sp, map[])
  {
    grades, subjectGrades := [], map[];
    var i := 0;
    while i < |rows|
      invariant 0 <= i <= |rows|
      invariant grades == GradesOf(rows[..i])
      invariant subjectGrades == SubjectGrades(rows[..i], sp, map[])
    {
      GatherStep(rows, i, sp, map[]);
      var row := rows[i];
      if row.nota.Val? {
        grades := grades + [row.nota.v];
        var materia := SubjectKey(row, sp);
        if materia.Some? {
          subjectGrades := Append(subjectGrades, materia.value, row.nota.v);
        }
      }
      i := i + 1;
    }
    assert rows[..i] == rows;
  }

  // ----- grade statistics -----

  function Sum(xs: seq<real>): real {
    if xs == [] then 0.0 else Sum(xs[..|xs| - 1]) + xs[|xs| - 1]
  }

  /** `np.mean`. */
  function Mean(xs: seq<real>): real
    requires xs != []
  {
    Sum(xs) / |xs| as real
  }

  /** `min`. */
  function Min(xs: seq<real>): (m: real)
    requires xs != []
    ensures m in xs
    ensures forall i :: 0 <= i < |xs| ==> m <= xs[i]
  {
    if |xs| == 1 then xs[0]
    else
      var m := Min(xs[..|xs| - 1]);
      assert forall i :: 0 <= i < |xs| - 1 ==> xs[..|xs| - 1][i] == xs[i];
      if xs[|xs| - 1] < m then xs[|xs| - 1] else m
  }

  lemma {:induction false} SumAtLeast(xs: seq<real>, m: real)
    requires forall i :: 0 <= i < |xs| ==> m <= xs[i]
    ensures Sum(xs) >= |xs| as real * m
  {
    if xs != [] {
      assert forall i :: 0 <= i < |xs| - 1 ==> xs[..|xs| - 1][i] == xs[i];
      SumAtLeast(xs[..|xs| - 1], m);
    }
  }

  /** The lowest grade is never above the mean grade. */
  lemma MinAtMostMean(xs: seq<real>)
    requires xs != []
    ensures Min(xs) <= Mean(xs)
  {
    var n, m := |xs| as real, Min(xs);
    SumAtLeast(xs, m);
    assert Sum(xs) - n * m >= 0.0;
    assert (Sum(xs) - n * m) / n >= 0.0;
    assert (Sum(xs) - n * m) / n == Sum(xs) / n - m;
  }

  // ----- the dataset -----

  /** `student.get('academic_performance', [])`: the rows, or none. */
  function AcademicRows(s: Student): seq<GradeRecord> {
    if s.academicPerformance.Val? then s.academicPerformance.v else []
  }

  /** Records, and the two skip counters the scripts report. */
  datatype Tally<R> = Tally(records: seq<R>, noAcademic: nat, unknownGrade: nat)

  /** What becomes of one database student. */
  datatype Outcome<R> = Kept(record: R) | NotACode | NoAcademic | UnknownGrade

  /** A kept student adds its record; a skipped one is counted under its reason. */
  function Tallied<R>(t: Tally<R>, o: Outcome<R>): (next: Tally<R>)
    ensures |next.records| + next.noAcademic + next.unknownGrade
      == |t.records| + t.noAcademic + t.unknownGrade + (if o.NotACode? then 0 else 1)
  {
    Tally(t.records + (if o.Kept? then [o.record] else []),
          t.noAcademic + (if o.NoAcademic? then 1 else 0),
          t.unknownGrade + (if o.UnknownGrade? then 1 else 0))
  }

  /** The student loop's bookkeeping for one screened student. */
  method TallyOutcome<R>(t: Tally<R>, o: Outcome<R>) returns (next: Tally<R>)
    ensures next == Tallied(t, o)
  {
    var records, noAcademic, unknownGrade := t.records, t.noAcademic, t.unknownGrade;
    match o {
      case Kept(rec) => records := records + [rec];
      case NoAcademic => noAcademic := noAcademic + 1;
      case UnknownGrade => unknownGrade := unknownGrade + 1;
      case NotACode =>
    }
    next := Tally(records, noAcademic, unknownGrade);
  }
}
