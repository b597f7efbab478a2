/**
 * The search for CSV students missing from the database: a CSV student is
 * missing when their normalised "Nombres Apellidos" is not the normalised
 * name of any database student; the missing students' grades are then
 * tallied in a dictionary (an insertion-ordered list of keys and counts here).
 */
module FindMissing {
  import opened Py
  import opened Text

  /** `str(name).lower().strip()`. */
  function NormalizeText(s: string): (r: string)
    ensures IsLowered(r)
    ensures r == [] || (!IsSpace(r[0]) && !IsSpace(r[|r| - 1]))
  {
    var lowered := Lower(s);
    var r := Strip(lowered);
    LowerIsLowered(s);
    ContainedLowered(lowered, r);
    r
  }

  /** Normalising twice is normalising once. */
  lemma NormalizeIdempotent(s: string)
    ensures NormalizeText(NormalizeText(s)) == NormalizeText(s)
  {
    var t := NormalizeText(s);
    LowerOfLowered(t);
    StripOfEdgeless(t);
  }

  /**
   * `normalize_name` of a database student's `s.get('nombre', '')`: a
   * missing key gives "", None is NaN to pandas and gives "".
   */
  function NormalizeName(name: Field<string>): (r: string)
    ensures !name.Val? ==> r == ""
    ensures name.Val? ==> r == NormalizeText(name.v)
  {
    match name
    case Absent => NormalizeText("")
    case Null => ""
    case Val(s) => NormalizeText(s)
  }

  datatype DbStudent = DbStudent(nombre: Field<string>, grado: Field<string>)

  /** A row of the students CSV, in the columns the script reads. */
  datatype CsvRow = CsvRow(id: Cell, nombres: Cell, apellidos: Cell, grado: Cell, edad: Cell, quintil: Cell, direccion: Cell)

  /** `f"{row['Nombres']} {row['Apellidos']}"`: a NaN part prints as "nan". */
  function FullName(row: CsvRow): string {
    CellText(row.nombres) + " " + CellText(row.apellidos)
  }

  /** A missing student as the script lists it; a NaN quintil is recorded as None. */
  datatype Missing = Missing(csvId: Cell, nombre: string, grado: Cell, edad: Cell, quintil: Option<Cell>, direccion: Cell)

  function MissingEntry(row: CsvRow): (m: Missing)
    ensures m.nombre == FullName(row)
    ensures m.quintil.None? <==> row.quintil.NaN?
    ensures m.quintil.Some? ==> m.quintil.value == row.quintil
  {
    Missing(row.id, FullName(row), row.grado, row.edad, if row.quintil.NaN? then None else Some(row.quintil), row.direccion)
  }

  /** The normalised names of the database students. */
  function DbNames(db: seq<DbStudent>): set<string> {
    set s | s in db :: NormalizeName(s.nombre)
  }

  lemma DbNamesStep(db: seq<DbStudent>, i: nat)
    requires i < |db|
    ensures DbNames(db[..i + 1]) == DbNames(db[..i]) + {NormalizeName(db[i].nombre)}
  {
    assert db[..i + 1] == db[..i] + [db[i]];
  }

  /** The `db_names` loop. */
  method BuildDbNames(db: seq<DbStudent>) returns (names: set<string>)
    ensures names == DbNames(db)
  {
    names := {};
    var i := 0;
    while i < |db|
      invariant 0 <= i <= |db|
      invariant names == DbNames(db[..i])
    {
      DbNamesStep(db, i);
      names := names + {NormalizeName(db[i].nombre)};
      i := i + 1;
    }
    assert db[..i] == db;
  }

  /** The CSV students whose normalised full name is not a database name, in CSV order. */
  function MissingOf(rows: seq<CsvRow>, names: set<string>): (ms: seq<Missing>)
    ensures |ms| <= |rows|
  {
    if rows == [] then []
    else
      var row := rows[|rows| - 1];
      MissingOf(rows[..|rows| - 1], names) + if NameAbsent(row, names) then [MissingEntry(row)] else []
  }

  lemma MissingStep(rows: seq<CsvRow>, names: set<string>, i: nat)
    requires i < |rows|
    ensures MissingOf(rows[..i + 1], names) ==
      if NameAbsent(rows[i], names) then MissingOf(rows[..i], names) + [MissingEntry(rows[i])]
      else MissingOf(rows[..i], names)
  {
    assert rows[..i + 1][..i] == rows[..i];
    assert MissingOf(rows[..i], names) + [] == MissingOf(rows[..i], names);
  }

  /** The `missing_students` loop. */
  method FindMissingStudents(rows: seq<CsvRow>, names: set<string>) returns (missing: seq<Missing>)
    ensures missing == MissingOf(rows, names)
  {
    missing := [];
    var i := 0;
    while i < |rows|
      invariant 0 <= i <= |rows|
      invariant missing == MissingOf(rows[..i], names)
    {
      MissingStep(rows, names, i);
      if NameAbsent(rows[i], names) {
        missing := missing + [MissingEntry(rows[i])];
      }
      i := i + 1;
    }
    assert rows[..i] == rows;
  }

  /** The row's normalised full name is not a database name. */
  predicate NameAbsent(row: CsvRow, names: set<string>) {
    NormalizeText(FullName(row)) !in names
  }

  lemma MissingLast(rows: seq<CsvRow>, names: set<string>)
    requires rows != []
    ensures MissingOf(rows, names) == MissingOf(rows[..|rows| - 1], names)
      + if NameAbsent(rows[|rows| - 1], names) then [MissingEntry(rows[|rows| - 1])] else []
  {
  }

  /** Every reported student comes from a CSV row whose normalised name is not a database name. */
  lemma {:induction false} OnlyAbsentReported(rows: seq<CsvRow>, names: set<string>)
    ensures forall m :: m in MissingOf(rows, names) ==> exists row :: row in rows && NameAbsent(row, names) && MissingEntry(row) == m
  {
    if rows != [] {
      var init := rows[..|rows| - 1];
      var last := rows[|rows| - 1];
      OnlyAbsentReported(init, names);
      MissingLast(rows, names);
      forall m | m in MissingOf(rows, names)
        ensures exists row :: row in rows && NameAbsent(row, names) && MissingEntry(row) == m
      {
        if m in MissingOf(init, names) {
          var row :| row in init && NameAbsent(row, names) && MissingEntry(row) == m;
          assert row in rows;
        } else {
          assert last in rows && NameAbsent(last, names) && MissingEntry(last) == m;
        }
      }
    }
  }

  /** Every CSV row whose normalised name is not a database name is reported. */
  lemma {:induction false} EveryAbsentReported(rows: seq<CsvRow>, names: set<string>)
    ensures forall row :: row in rows && NameAbsent(row, names) ==> MissingEntry(row) in MissingOf(rows, names)
  {
    if rows != [] {
      var init := rows[..|rows| - 1];
      var last := rows[|rows| - 1];
      EveryAbsentReported(init, names);
      MissingLast(rows, names);
      forall row | row in rows && NameAbsent(row, names)
        ensures MissingEntry(row) in MissingOf(rows, names)
      {
        var before := MissingOf(init, names);
        if row != last {
          assert row in init by {
            var k :| 0 <= k < |rows| && rows[k] == row;
            assert k != |rows| - 1;
            assert init[k] == row;
          }
          assert MissingEntry(row) in before;
          assert before <= MissingOf(rows, names);
        } else {
          assert MissingOf(rows, names) == before + [MissingEntry(row)];
        }
      }
    }
  }

  // ----- the grade tally -----

  /** An insertion-ordered dictionary from text keys to counts. */
  type Counts = seq<(string, nat)>

  /** `d.get(k, 0)`. */
  function GetCount(d: Counts, k: string): nat {
    if d == [] then 0 else if d[0].0 == k then d[0].1 else GetCount(d[1..], k)
  }

  /** `d[k] = v`: an existing key keeps its place, a new key goes last. */
  function Put(d: Counts, k: string, v: nat): (r: Counts)
    ensures GetCount(r, k) == v
    ensures forall j :: j != k ==> GetCount(r, j) == GetCount(d, j)
  {
    if d == [] then [(k, v)]
    else if d[0].0 == k then [(k, v)] + d[1..]
    else [d[0]] + Put(d[1..], k, v)
  }

  /** The sum of the counts. */
  function Total(d: Counts): nat {
    if d == [] then 0 else d[0].1 + Total(d[1..])
  }

  lemma {:induction false} PutTotal(d: Counts, k: string, v: nat)
    ensures Total(Put(d, k, v)) == Total(d) - GetCount(d, k) + v
  {
    if d != [] && d[0].0 != k {
      PutTotal(d[1..], k, v);
    }
  }

  /** The grade key of a missing student: `str(s['grado']).strip()`. */
  function GradeKey(m: Missing): string {
    Strip(CellText(m.grado))
  }

  function GradeKeys(ms: seq<Missing>): (gs: seq<string>)
    ensures |gs| == |ms|
  {
    if ms == [] then [] else GradeKeys(ms[..|ms| - 1]) + [GradeKey(ms[|ms| - 1])]
  }

  /** `d[g] = d.get(g, 0) + 1`. */
  function CountOnce(d: Counts, g: string): (r: Counts)
    ensures GetCount(r, g) == GetCount(d, g) + 1
  {
    Put(d, g, GetCount(d, g) + 1)
  }

  /** The tally of a sequence of grades, one `CountOnce` each. */
  function Tally(keys: seq<string>): Counts {
    if keys == [] then [] else CountOnce(Tally(keys[..|keys| - 1]), keys[|keys| - 1])
  }

  /** The tally after the first missing students. */
  function TallyOf(ms: seq<Missing>): Counts {
    Tally(GradeKeys(ms))
  }

  /** Tallying one more grade is one more `d[g] = d.get(g, 0) + 1`. */
  lemma TallyAppend(keys: seq<string>, g: string)
    ensures Tally(keys + [g]) == CountOnce(Tally(keys), g)
  {
    assert (keys + [g])[..|keys|] == keys;
  }

  lemma GradeKeysStep(ms: seq<Missing>, i: nat)
    requires i < |ms|
    ensures GradeKeys(ms[..i + 1]) == GradeKeys(ms[..i]) + [GradeKey(ms[i])]
  {
    assert ms[..i + 1][..i] == ms[..i];
  }

  /** The `grade_counts` loop. */
  method TallyGrades(missing: seq<Missing>) returns (gradeCounts: Counts)
    ensures gradeCounts == TallyOf(missing)
  {
    gradeCounts := [];
    var i := 0;
    ghost var keys: seq<string> := [];
    while i < |missing|
      invariant 0 <= i <= |missing|
      invariant keys == GradeKeys(missing[..i])
      invariant gradeCounts == Tally(keys)
    {
      var g := GradeKey(missing[i]);
      gradeCounts := Put(gradeCounts, g, GetCount(gradeCounts, g) + 1);
      TallyAppend(keys, g);
      assert gradeCounts == CountOnce(Tally(keys), g);
      GradeKeysStep(missing, i);
      keys := keys + [g];
      i := i + 1;
    }
    assert missing[..i] == missing;
  }

  /** Each grade's count is the number of missing students with that grade, and the counts add up to all of them. */
  lemma TallyCounts(ms: seq<Missing>)
    ensures Total(TallyOf(ms)) == |ms|
    ensures forall g :: GetCount(TallyOf(ms), g) == multiset(GradeKeys(ms))[g]
  {
    TallyTotal(GradeKeys(ms));
    TallyMultiplicities(GradeKeys(ms));
  }

  /** The counts of a tally add up to the number of grades tallied. */
  lemma {:induction false} TallyTotal(keys: seq<string>)
    ensures Total(Tally(keys)) == |keys|
  {
    if keys != [] {
      var d := Tally(keys[..|keys| - 1]);
      var g := keys[|keys| - 1];
      TallyTotal(keys[..|keys| - 1]);
      PutTotal(d, g, GetCount(d, g) + 1);
    }
  }

  /** Each count of a tally is the number of times its grade occurs. */
  lemma {:induction false} TallyMultiplicities(keys: seq<string>)
    ensures forall g :: GetCount(Tally(keys), g) == multiset(keys)[g]
  {
    if keys != [] {
      var init := keys[..|keys| - 1];
      TallyMultiplicities(init);
      assert keys == init + [keys[|keys| - 1]];
      CountOneMore(Tally(init), keys[|keys| - 1], init);
    }
  }

  /** Counting `g` once more keeps every count equal to the multiplicity among the grades seen. */
  lemma CountOneMore(d: Counts, g: string, keys: seq<string>)
    requires forall h :: GetCount(d, h) == multiset(keys)[h]
    ensures forall h :: GetCount(CountOnce(d, g), h) == multiset(keys + [g])[h]
  {
    assert multiset(keys + [g]) == multiset(keys) + multiset{g};
  }
}
