/**
 * The import of the household columns missing from `socioeconomic_data`:
 * the habit and house sheets (merged on the student number, not part of this
 * model) give one row per student; each row of a student that already has a
 * record becomes one update of that record, holding the columns present in
 * the row. Whether an update succeeds is the parameter `accepts`.
 */
module MissingSocio {
  import opened Py
  import opened Text
  import opened Ingest

  // ----- parsers -----

  const YesAnswers: seq<string> := ["si", "sí", "yes", "1", "true"]

  /** `parse_yes_no`: NaN is None; otherwise yes iff the stripped, lowered text is an answer in the list. */
  function ParseYesNo(c: Cell): (r: Option<bool>)
    ensures c.NaN? <==> r.None?
    ensures r.Some? ==> (r.value <==> Lower(Strip(CellText(c))) in YesAnswers)
  {
    if c.NaN? then None else Some(Lower(Strip(CellText(c))) in YesAnswers)
  }

  /** The texts `parse_tv_count` reads as three sets. */
  const ThreeOrMore: seq<string> := ["3 o más", "3 o mas", "4 o más", "4 o mas"]

  /** `parse_tv_count`: NaN is 0; the "3 or more" answers are 3; otherwise `int()` of the stripped text, or 0. */
  function ParseTvCount(c: Cell): (n: int)
    ensures c.NaN? ==> n == 0
    ensures !c.NaN? && Strip(CellText(c)) in ThreeOrMore ==> n == 3
    ensures !c.NaN? && Strip(CellText(c)) !in ThreeOrMore ==>
      n == (if ParseInt(Strip(CellText(c))).Some? then ParseInt(Strip(CellText(c))).value else 0)
  {
    if c.NaN? then 0
    else
      var v := Strip(CellText(c));
      if v in ThreeOrMore then 3
      else match ParseInt(v)
        case Some(i) => i
        case None => 0
  }

  /** `parse_vehicle_count`: NaN is 0; otherwise `int()` of the cell, or 0 when it raises. */
  function ParseVehicleCount(c: Cell): (n: int)
    ensures c.NaN? ==> n == 0
    ensures c.Int? ==> n == c.i
    ensures !c.NaN? ==> n == (if IntOfCell(c).Ok? then IntOfCell(c).value else 0)
  {
    if c.NaN? then 0
    else match IntOfCell(c)
      case Ok(i) => i
      case Err(_) => 0
  }

  /** `parse_bathroom_count`: the first description found in the lowered text decides; NaN and anything else is 1. */
  function ParseBathroomCount(c: Cell): (n: int)
    ensures 0 <= n <= 3
    ensures c.NaN? ==> n == 1
    ensures !c.NaN? ==>
      var v := Lower(CellText(c));
      (n == 0 <==> Contains(v, "no tiene"))
      && (n == 3 <==> !Contains(v, "no tiene") && (Contains(v, "3 o más") || Contains(v, "3 o mas")))
      && (n == 2 <==> !Contains(v, "no tiene") && !Contains(v, "3 o más") && !Contains(v, "3 o mas") && Contains(v, "2 cuartos"))
  {
    if c.NaN? then 1
    else
      var v := Lower(CellText(c));
      if Contains(v, "no tiene") then 0
      else if Contains(v, "3 o más") || Contains(v, "3 o mas") then 3
      else if Contains(v, "2 cuartos") then 2
      else if Contains(v, "1 cuarto") then 1
      else 1
  }

  // ----- one row -----

  /** A value of an update: a parsed yes/no (None for NaN), a count, or a text. */
  datatype UpdateValue = Flag(b: Option<bool>) | Count(n: int) | Text(s: string)

  type UpdateData = map<string, UpdateValue>

  /** The yes/no columns of the habit sheet read before the counts, with the database column each fills. */
  const HabitFlags: seq<(string, string)> := [
    ("Telefono_convencional", "telefono_convencional"), ("Cocina_horno", "cocina_horno"),
    ("Refrigeradora", "refrigeradora"), ("Lavadora", "lavadora"), ("Equipo de sonido", "equipo_sonido")]

  /** The yes/no columns of the habit sheet read after the counts. */
  const OnlineFlags: seq<(string, string)> := [
    ("Compra_Ropa_Centros", "compra_centros_comerciales"), ("Uso_correo", "correo_electronico"),
    ("Red_social", "redes_sociales")]

  /** The text columns of the house sheet, copied only when not NaN. */
  const MaterialTexts: seq<(string, string)> := [("Material_Pared", "material_paredes"), ("Material_Piso", "material_piso")]

  const SanitationTexts: seq<(string, string)> := [("Servicio_Higienico ", "tipo_sanitario")]

  /** Some column of `cols` is in the row. */
  predicate AnyIn(row: Row, cols: seq<(string, string)>) {
    exists j :: 0 <= j < |cols| && cols[j].0 in row
  }

  /** Some column of `cols` holds a value that is not NaN. */
  predicate AnyPresent(row: Row, cols: seq<(string, string)>) {
    exists j :: 0 <= j < |cols| && !At(row, cols[j].0).NaN?
  }

  lemma AnyInCons(row: Row, cols: seq<(string, string)>)
    requires cols != []
    ensures AnyIn(row, cols) <==> cols[0].0 in row || AnyIn(row, cols[1..])
  {
    if AnyIn(row, cols[1..]) {
      var j :| 0 <= j < |cols[1..]| && cols[1..][j].0 in row;
      assert cols[j + 1].0 in row;
    }
    if AnyIn(row, cols) && cols[0].0 !in row {
      var j :| 0 <= j < |cols| && cols[j].0 in row;
      assert cols[1..][j - 1].0 in row;
    }
  }

  lemma AnyPresentCons(row: Row, cols: seq<(string, string)>)
    requires cols != []
    ensures AnyPresent(row, cols) <==> !At(row, cols[0].0).NaN? || AnyPresent(row, cols[1..])
  {
    if AnyPresent(row, cols[1..]) {
      var j :| 0 <= j < |cols[1..]| && !At(row, cols[1..][j].0).NaN?;
      assert !At(row, cols[j + 1].0).NaN?;
    }
    if AnyPresent(row, cols) && At(row, cols[0].0).NaN? {
      var j :| 0 <= j < |cols| && !At(row, cols[j].0).NaN?;
      assert !At(row, cols[1..][j - 1].0).NaN?;
    }
  }

  /** The answer the last column of `cols` in the row that fills `key` gives, read from the end. */
  function LastFlag(row: Row, cols: seq<(string, string)>, key: string): Option<UpdateValue> {
    if cols == [] then None
    else
      var c := cols[|cols| - 1];
      if c.0 in row && c.1 == key then Some(Flag(ParseYesNo(row[c.0])))
      else LastFlag(row, cols[..|cols| - 1], key)
  }

  /** Reading from the front: the head's answer counts only when no later column fills the key. */
  lemma {:induction false} LastFlagCons(row: Row, cols: seq<(string, string)>, key: string)
    requires cols != []
    ensures LastFlag(row, cols, key) ==
      if LastFlag(row, cols[1..], key).Some? then LastFlag(row, cols[1..], key)
      else if cols[0].0 in row && cols[0].1 == key then Some(Flag(ParseYesNo(row[cols[0].0])))
      else None
  {
    if |cols| > 1 {
      var init := cols[..|cols| - 1];
      LastFlagCons(row, init, key);
      assert init[0] == cols[0] && init[1..] == cols[1..][..|cols[1..]| - 1];
    }
  }

  /** `if col in row: update_data[key] = parse_yes_no(row[col])` for each pair in turn. */
  function AddFlags(row: Row, d: UpdateData, cols: seq<(string, string)>): (r: UpdateData)
    ensures d.Keys <= r.Keys
    ensures r == map[] <==> d == map[] && !AnyIn(row, cols)
    decreases |cols|
  {
    if cols == [] then d
    else
      var d' := if cols[0].0 in row then d[cols[0].1 := Flag(ParseYesNo(row[cols[0].0]))] else d;
      var r := AddFlags(row, d', cols[1..]);
      AnyInCons(row, cols);
      assert cols[0].0 in row ==> cols[0].1 in d'.Keys;
      r
  }

  /** The stripped text of the last column of `cols` that fills `key` and is not NaN, read from the end. */
  function LastText(row: Row, cols: seq<(string, string)>, key: string): Option<UpdateValue> {
    if cols == [] then None
    else
      var c := cols[|cols| - 1];
      if !At(row, c.0).NaN? && c.1 == key then Some(Text(Strip(CellText(row[c.0]))))
      else LastText(row, cols[..|cols| - 1], key)
  }

  lemma {:induction false} LastTextCons(row: Row, cols: seq<(string, string)>, key: string)
    requires cols != []
    ensures LastText(row, cols, key) ==
      if LastText(row, cols[1..], key).Some? then LastText(row, cols[1..], key)
      else if !At(row, cols[0].0).NaN? && cols[0].1 == key then Some(Text(Strip(CellText(row[cols[0].0]))))
      else None
  {
    if |cols| > 1 {
      var init := cols[..|cols| - 1];
      LastTextCons(row, init, key);
      assert init[0] == cols[0] && init[1..] == cols[1..][..|cols[1..]| - 1];
    }
  }

  /** `if col in row and pd.notna(row[col]): update_data[key] = str(row[col]).strip()` for each pair in turn. */
  function AddTexts(row: Row, d: UpdateData, cols: seq<(string, string)>): (r: UpdateData)
    ensures d.Keys <= r.Keys
    ensures r == map[] <==> d == map[] && !AnyPresent(row, cols)
    decreases |cols|
  {
    if cols == [] then d
    else
      var c := At(row, cols[0].0);
      var d' := if !c.NaN? then d[cols[0].1 := Text(Strip(CellText(c)))] else d;
      var r := AddTexts(row, d', cols[1..]);
      AnyPresentCons(row, cols);
      assert !c.NaN? ==> cols[0].1 in d'.Keys;
      r
  }

  /**
   * The flags added: the keys set before stay, and a key holds the answer of
   * the last column in the row that fills it, or else its earlier value.
   */
  lemma AddFlagsWrites(row: Row, d: UpdateData, cols: seq<(string, string)>)
    ensures forall k :: k in AddFlags(row, d, cols) <==> k in d || LastFlag(row, cols, k).Some?
    ensures forall k :: k in AddFlags(row, d, cols) ==>
      AddFlags(row, d, cols)[k] == if LastFlag(row, cols, k).Some? then LastFlag(row, cols, k).value else d[k]
  {
    forall k ensures k in AddFlags(row, d, cols) <==> k in d || LastFlag(row, cols, k).Some?
      ensures k in AddFlags(row, d, cols) ==>
        AddFlags(row, d, cols)[k] == if LastFlag(row, cols, k).Some? then LastFlag(row, cols, k).value else d[k]
    {
      AddFlagsKey(row, d, cols, k);
    }
  }

  /** One key of the flags added, by induction on the columns. */
  lemma {:induction false} AddFlagsKey(row: Row, d: UpdateData, cols: seq<(string, string)>, k: string)
    ensures k in AddFlags(row, d, cols) <==> k in d || LastFlag(row, cols, k).Some?
    ensures k in AddFlags(row, d, cols) ==>
      AddFlags(row, d, cols)[k] == if LastFlag(row, cols, k).Some? then LastFlag(row, cols, k).value else d[k]
    decreases |cols|
  {
    if cols != [] {
      var d' := if cols[0].0 in row then d[cols[0].1 := Flag(ParseYesNo(row[cols[0].0]))] else d;
      assert AddFlags(row, d, cols) == AddFlags(row, d', cols[1..]);
      AddFlagsKey(row, d', cols[1..], k);
      LastFlagCons(row, cols, k);
    }
  }

  /**
   * The texts added: the keys set before stay, and a key holds the stripped
   * text of the last column with a value that fills it, or else its earlier
   * value.
   */
  lemma AddTextsWrites(row: Row, d: UpdateData, cols: seq<(string, string)>)
    ensures forall k :: k in AddTexts(row, d, cols) <==> k in d || LastText(row, cols, k).Some?
    ensures forall k :: k in AddTexts(row, d, cols) ==>
      AddTexts(row, d, cols)[k] == if LastText(row, cols, k).Some? then LastText(row, cols, k).value else d[k]
  {
    forall k ensures k in AddTexts(row, d, cols) <==> k in d || LastText(row, cols, k).Some?
      ensures k in AddTexts(row, d, cols) ==>
        AddTexts(row, d, cols)[k] == if LastText(row, cols, k).Some? then LastText(row, cols, k).value else d[k]
    {
      AddTextsKey(row, d, cols, k);
    }
  }

  /** One key of the texts added, by induction on the columns. */
  lemma {:induction false} AddTextsKey(row: Row, d: UpdateData, cols: seq<(string, string)>, k: string)
    ensures k in AddTexts(row, d, cols) <==> k in d || LastText(row, cols, k).Some?
    ensures k in AddTexts(row, d, cols) ==>
      AddTexts(row, d, cols)[k] == if LastText(row, cols, k).Some? then LastText(row, cols, k).value else d[k]
    decreases |cols|
  {
    if cols != [] {
      var c := At(row, cols[0].0);
      var d' := if !c.NaN? then d[cols[0].1 := Text(Strip(CellText(c)))] else d;
      assert AddTexts(row, d, cols) == AddTexts(row, d', cols[1..]);
      AddTextsKey(row, d', cols[1..], k);
      LastTextCons(row, cols, k);
    }
  }

  /** The row has one of the columns the script reads (a text column only counts when not NaN). */
  predicate HasSomeColumn(row: Row) {
    AnyIn(row, HabitFlags) || "TV" in row || "Vehiculos" in row || AnyIn(row, OnlineFlags)
    || AnyPresent(row, MaterialTexts) || "N_banos" in row || AnyPresent(row, SanitationTexts)
  }

  /**
   * `update_data` built from four column tables, key by key in the order of
   * the script: the yes/no columns of the habit sheet, the TV and vehicle
   * counts, the yes/no columns of internet use, the wall and floor texts,
   * the bathroom count and the sanitation text.
   */
  function Assemble(row: Row, habit: seq<(string, string)>, online: seq<(string, string)>,
                    material: seq<(string, string)>, sanitation: seq<(string, string)>): (d: UpdateData)
    ensures d == map[] <==>
      !(AnyIn(row, habit) || "TV" in row || "Vehiculos" in row || AnyIn(row, online)
        || AnyPresent(row, material) || "N_banos" in row || AnyPresent(row, sanitation))
    ensures "TV" in row ==> "numero_tv" in d
    ensures "N_banos" in row ==> "cuartos_bano" in d
  {
    var d1 := AddFlags(row, map[], habit);
    var d2 := if "TV" in row then d1["numero_tv" := Count(ParseTvCount(row["TV"]))] else d1;
    var d3 := if "Vehiculos" in row then d2["numero_vehiculos" := Count(ParseVehicleCount(row["Vehiculos"]))] else d2;
    var d4 := AddFlags(row, d3, online);
    var d5 := AddTexts(row, d4, material);
    var d6 := if "N_banos" in row then d5["cuartos_bano" := Count(ParseBathroomCount(row["N_banos"]))] else d5;
    var d := AddTexts(row, d6, sanitation);
    assert "TV" in row ==> "numero_tv" in d2.Keys;
    assert "Vehiculos" in row ==> "numero_vehiculos" in d3.Keys;
    assert "N_banos" in row ==> "cuartos_bano" in d6.Keys;
    d
  }

  /**
   * `update_data` of one row, with the script's columns (a key's place in a
   * dictionary does not matter to the update). It is empty exactly when the
   * row has none of the columns the script reads.
   */
  function UpdateDataOf(row: Row): (d: UpdateData)
    ensures d == map[] <==> !HasSomeColumn(row)
    ensures "TV" in row ==> "numero_tv" in d
    ensures "N_banos" in row ==> "cuartos_bano" in d
  {
    Assemble(row, HabitFlags, OnlineFlags, MaterialTexts, SanitationTexts)
  }

  /** No column of `cols` fills `key`, so neither kind of column pass writes it. */
  lemma {:induction false} NotFilled(row: Row, cols: seq<(string, string)>, key: string)
    requires forall j :: 0 <= j < |cols| ==> cols[j].1 != key
    ensures LastFlag(row, cols, key).None? && LastText(row, cols, key).None?
  {
    if cols != [] {
      NotFilled(row, cols[..|cols| - 1], key);
    }
  }

  /** A key no column of `cols` fills keeps what it had in both kinds of pass. */
  lemma PassKeeps(row: Row, d: UpdateData, cols: seq<(string, string)>, key: string)
    requires forall j :: 0 <= j < |cols| ==> cols[j].1 != key
    ensures key in AddFlags(row, d, cols) <==> key in d
    ensures key in d ==> AddFlags(row, d, cols)[key] == d[key]
    ensures key in AddTexts(row, d, cols) <==> key in d
    ensures key in d ==> AddTexts(row, d, cols)[key] == d[key]
  {
    NotFilled(row, cols, key);
    AddFlagsKey(row, d, cols, key);
    AddTextsKey(row, d, cols, key);
  }

  /** A count key that no table fills is exactly what its own column gives. */
  lemma AssembleCount(row: Row, habit: seq<(string, string)>, online: seq<(string, string)>,
                      material: seq<(string, string)>, sanitation: seq<(string, string)>,
                      key: string, col: string, v: UpdateValue)
    requires forall j :: 0 <= j < |habit| ==> habit[j].1 != key
    requires forall j :: 0 <= j < |online| ==> online[j].1 != key
    requires forall j :: 0 <= j < |material| ==> material[j].1 != key
    requires forall j :: 0 <= j < |sanitation| ==> sanitation[j].1 != key
    requires (key, col) in {("numero_tv", "TV"), ("numero_vehiculos", "Vehiculos"), ("cuartos_bano", "N_banos")}
    requires col in row ==> v == Count(if col == "TV" then ParseTvCount(row[col])
                                       else if col == "Vehiculos" then ParseVehicleCount(row[col])
                                       else ParseBathroomCount(row[col]))
    ensures key in Assemble(row, habit, online, material, sanitation) <==> col in row
    ensures col in row ==> Assemble(row, habit, online, material, sanitation)[key] == v
  {
    var d1 := AddFlags(row, map[], habit);
    var d2 := if "TV" in row then d1["numero_tv" := Count(ParseTvCount(row["TV"]))] else d1;
    var d3 := if "Vehiculos" in row then d2["numero_vehiculos" := Count(ParseVehicleCount(row["Vehiculos"]))] else d2;
    var d4 := AddFlags(row, d3, online);
    var d5 := AddTexts(row, d4, material);
    var d6 := if "N_banos" in row then d5["cuartos_bano" := Count(ParseBathroomCount(row["N_banos"]))] else d5;
    PassKeeps(row, map[], habit, key);
    PassKeeps(row, d3, online, key);
    PassKeeps(row, d4, material, key);
    PassKeeps(row, d6, sanitation, key);
  }

  /** None of the column tables fills one of the three count keys. */
  lemma CountKeysUnfilled(key: string)
    requires key == "numero_tv" || key == "numero_vehiculos" || key == "cuartos_bano"
    ensures forall j :: 0 <= j < |HabitFlags| ==> HabitFlags[j].1 != key
    ensures forall j :: 0 <= j < |OnlineFlags| ==> OnlineFlags[j].1 != key
    ensures forall j :: 0 <= j < |MaterialTexts| ==> MaterialTexts[j].1 != key
    ensures forall j :: 0 <= j < |SanitationTexts| ==> SanitationTexts[j].1 != key
  {
  }

  /**
   * The three counts of the update: the TV, vehicle and bathroom keys are
   * present exactly when their columns are, each holding its parsed count.
   */
  lemma UpdateCounts(row: Row)
    ensures "numero_tv" in UpdateDataOf(row) <==> "TV" in row
    ensures "TV" in row ==> UpdateDataOf(row)["numero_tv"] == Count(ParseTvCount(row["TV"]))
    ensures "numero_vehiculos" in UpdateDataOf(row) <==> "Vehiculos" in row
    ensures "Vehiculos" in row ==> UpdateDataOf(row)["numero_vehiculos"] == Count(ParseVehicleCount(row["Vehiculos"]))
    ensures "cuartos_bano" in UpdateDataOf(row) <==> "N_banos" in row
    ensures "N_banos" in row ==> UpdateDataOf(row)["cuartos_bano"] == Count(ParseBathroomCount(row["N_banos"]))
  {
    CountKeysUnfilled("numero_tv");
    CountKeysUnfilled("numero_vehiculos");
    CountKeysUnfilled("cuartos_bano");
    var tv := if "TV" in row then Count(ParseTvCount(row["TV"])) else Count(0);
    var cars := if "Vehiculos" in row then Count(ParseVehicleCount(row["Vehiculos"])) else Count(0);
    var baths := if "N_banos" in row then Count(ParseBathroomCount(row["N_banos"])) else Count(0);
    AssembleCount(row, HabitFlags, OnlineFlags, MaterialTexts, SanitationTexts, "numero_tv", "TV", tv);
    AssembleCount(row, HabitFlags, OnlineFlags, MaterialTexts, SanitationTexts, "numero_vehiculos", "Vehiculos", cars);
    AssembleCount(row, HabitFlags, OnlineFlags, MaterialTexts, SanitationTexts, "cuartos_bano", "N_banos", baths);
  }

  /** The script's student code: `int()` of the merged student number, zero-padded; NaN raises. */
  function RowStudentCode(row: Row): (r: Result<string>)
    ensures r.Ok? <==> "ID_Estudiante" in row && IntOfCell(row["ID_Estudiante"]).Ok?
    ensures r.Ok? ==> r.value == StudentCode(Int(IntOfCell(row["ID_Estudiante"]).value))
    ensures r.Ok? ==> r.value[..3] == "EST" && ParseInt(r.value[3..]) == Some(IntOfCell(row["ID_Estudiante"]).value)
  {
    match Index(row, "ID_Estudiante")
    case Err(e) => Err(e)
    case Ok(num) =>
      match IntOfCell(num)
      case Err(e) => Err(e)
      case Ok(n) =>
        StudentCodeRoundTrip(n);
        Ok(StudentCode(Int(n)))
  }

  datatype Request = Request(recordId: int, data: UpdateData)

  /** What a row asks for: nothing for a student without a record or with an empty update. */
  function RequestOf(row: Row, existing: map<string, int>): (r: Result<Option<Request>>)
    ensures r.Ok? && r.value.Some? ==>
      RowStudentCode(row).Ok? && RowStudentCode(row).value in existing
      && r.value.value == Request(existing[RowStudentCode(row).value], UpdateDataOf(row))
      && UpdateDataOf(row) != map[]
    ensures r.Ok? && r.value.None? ==>
      RowStudentCode(row).Ok? && (RowStudentCode(row).value !in existing || UpdateDataOf(row) == map[])
  {
    match RowStudentCode(row)
    case Err(e) => Err(e)
    case Ok(code) =>
      if code !in existing then Ok(None)
      else
        var d := UpdateDataOf(row);
        if d == map[] then Ok(None) else Ok(Some(Request(existing[code], d)))
  }

  // ----- the loop -----

  /** The rows' results in order, the `None`s dropped; the first error stops the run. */
  function Gather<T, U>(xs: seq<T>, f: T -> Result<Option<U>>): Result<seq<U>> {
    if xs == [] then Ok([])
    else
      match Gather(xs[..|xs| - 1], f)
      case Err(e) => Err(e)
      case Ok(done) =>
        match f(xs[|xs| - 1])
        case Err(e) => Err(e)
        case Ok(None) => Ok(done)
        case Ok(Some(q)) => Ok(done + [q])
  }

  lemma GatherStep<T, U>(xs: seq<T>, f: T -> Result<Option<U>>, i: nat)
    requires i < |xs| && Gather(xs[..i], f).Ok? && f(xs[i]).Ok?
    ensures Gather(xs[..i + 1], f) == Ok(Gather(xs[..i], f).value + if f(xs[i]).value.Some? then [f(xs[i]).value.value] else [])
  {
    var ys := xs[..i + 1];
    assert ys[..|ys| - 1] == xs[..i] && ys[|ys| - 1] == xs[i];
    if f(xs[i]).value.Some? {
      assert Gather(ys, f) == Ok(Gather(xs[..i], f).value + [f(xs[i]).value.value]);
    } else {
      assert Gather(ys, f) == Gather(xs[..i], f);
      assert Gather(xs[..i], f).value + [] == Gather(xs[..i], f).value;
    }
  }

  lemma {:induction false} GatherStops<T, U>(xs: seq<T>, f: T -> Result<Option<U>>, i: nat)
    requires i < |xs| && Gather(xs[..i], f).Ok? && f(xs[i]).Err?
    ensures Gather(xs, f).Err?
    decreases |xs| - i
  {
    if i + 1 == |xs| {
      assert xs[..|xs| - 1] == xs[..i];
    } else {
      var init := xs[..|xs| - 1];
      assert init[..i] == xs[..i] && init[i] == xs[i];
      GatherStops(init, f, i);
    }
  }

  function RequestFn(existing: map<string, int>): Row -> Result<Option<Request>> {
    row => RequestOf(row, existing)
  }

  /** The update requests of the rows, in order; a row whose number is not an integer stops the script. */
  function Requests(rows: seq<Row>, existing: map<string, int>): Result<seq<Request>> {
    Gather(rows, RequestFn(existing))
  }

  function Accepted(qs: seq<Request>, accepts: Request -> bool): (n: nat)
    ensures n <= |qs|
  {
    if qs == [] then 0 else Accepted(qs[..|qs| - 1], accepts) + if accepts(qs[|qs| - 1]) then 1 else 0
  }

  lemma AcceptedStep(qs: seq<Request>, q: Request, accepts: Request -> bool)
    ensures Accepted(qs + [q], accepts) == Accepted(qs, accepts) + if accepts(q) then 1 else 0
  {
    assert (qs + [q])[..|qs|] == qs;
  }

  datatype Run = Run(requests: seq<Request>, updated: nat, errors: nat)

  /**
   * The update loop over the rows, given what each row asks for: skip, update,
   * and count successes and failures; the first row that raises stops it.
   */
  method RunUpdates<T>(rows: seq<T>, f: T -> Result<Option<Request>>, accepts: Request -> bool) returns (r: Result<Run>)
    ensures r.Ok? <==> Gather(rows, f).Ok?
    ensures r.Ok? ==>
      r.value.requests == Gather(rows, f).value
      && r.value.updated == Accepted(r.value.requests, accepts)
      && r.value.updated + r.value.errors == |r.value.requests|
  {
    var requests: seq<Request> := [];
    var updated := 0;
    var errors := 0;
    var i := 0;
    assert rows[..0] == [];
    while i < |rows|
      invariant 0 <= i <= |rows|
      invariant Gather(rows[..i], f) == Ok(requests)
      invariant updated == Accepted(requests, accepts) && updated + errors == |requests|
    {
      var q := f(rows[i]);
      if q.Err? {
        GatherStops(rows, f, i);
        return Err(q.error);
      }
      GatherStep(rows, f, i);
      if q.value.Some? {
        var request := q.value.value;
        AcceptedStep(requests, request, accepts);
        requests := requests + [request];
        if accepts(request) {
          updated := updated + 1;
        } else {
          errors := errors + 1;
        }
      } else {
        assert requests + [] == requests;
      }
      i := i + 1;
    }
    assert rows[..i] == rows;
    r := Ok(Run(requests, updated, errors));
  }

  /** The script's loop over the merged rows; `accepts` stands for the database's answer to each update. */
  method UpdateRecords(rows: seq<Row>, existing: map<string, int>, accepts: Request -> bool) returns (r: Result<Run>)
    ensures r.Ok? <==> Requests(rows, existing).Ok?
    ensures r.Ok? ==>
      r.value.requests == Requests(rows, existing).value
      && r.value.updated == Accepted(r.value.requests, accepts)
      && r.value.updated + r.value.errors == |r.value.requests|
  {
    r := RunUpdates(rows, RequestFn(existing), accepts);
  }

  /** The request of one row is for an existing record and carries a non-empty update. */
  lemma RequestIsForExistingRecord(row: Row, existing: map<string, int>)
    requires RequestOf(row, existing).Ok? && RequestOf(row, existing).value.Some?
    ensures RequestOf(row, existing).value.value.recordId in existing.Values
    ensures RequestOf(row, existing).value.value.data != map[]
  {
    var code := RowStudentCode(row).value;
    assert existing[code] in existing.Values;
  }

  /**
   * Every request is for a record that exists, carries a non-empty update,
   * and there is at most one per row.
   */
  lemma RequestsAreForExistingRecords(rows: seq<Row>, existing: map<string, int>)
    requires Requests(rows, existing).Ok?
    ensures |Requests(rows, existing).value| <= |rows|
    ensures forall q :: q in Requests(rows, existing).value ==> q.recordId in existing.Values && q.data != map[]
  {
    var f := RequestFn(existing);
    var good := (q: Request) => q.recordId in existing.Values && q.data != map[];
    forall row | f(row).Ok? && f(row).value.Some? ensures good(f(row).value.value) {
      RequestIsForExistingRecord(row, existing);
    }
    GatherKeeps(rows, f, good);
  }

  /** Gathering keeps at most one result per element, and a property every result has. */
  lemma {:induction false} GatherKeeps<T, U>(xs: seq<T>, f: T -> Result<Option<U>>, good: U -> bool)
    requires Gather(xs, f).Ok?
    requires forall x :: f(x).Ok? && f(x).value.Some? ==> good(f(x).value.value)
    ensures |Gather(xs, f).value| <= |xs|
    ensures forall u :: u in Gather(xs, f).value ==> good(u)
  {
    if xs != [] {
      GatherKeeps(xs[..|xs| - 1], f, good);
    }
  }

}
