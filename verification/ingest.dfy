/**
 * What the import scripts share: the "EST" student code built from a
 * spreadsheet ID, a spreadsheet row read with `row.get`, per-row conversion
 * that stops at the first raised exception, and inserting a table in
 * batches of at most `batch_size` records. Whether an insert request
 * succeeds is decided by the database; here it is the parameter `accepts`.
 */
module Ingest {
  import opened Py
  import opened Text

  // ----- student codes -----

  /** `f"EST{str(row['ID']).zfill(3)}"`: a sign of the ID stays in front of the zeros. */
  function StudentCode(id: Cell): (code: string)
    ensures |code| >= 6 && code[..3] == "EST"
    ensures !Signed(CellText(id)) ==> EndsWith(code, CellText(id))
    ensures Signed(CellText(id)) ==> code[3] == CellText(id)[0] && EndsWith(code, CellText(id)[1..])
  {
    var text := CellText(id);
    var padded := ZFill(text, 3);
    EndsWithPrefixed("EST", padded, if Signed(text) then text[1..] else text);
    assert ("EST" + padded)[3] == padded[0];
    "EST" + padded
  }

  /** An integer ID, negative ones included, can be read back from its code. */
  lemma StudentCodeRoundTrip(i: int)
    ensures ParseInt(StudentCode(Int(i))[3..]) == Some(i)
  {
    assert StudentCode(Int(i))[3..] == ZFill(IntToString(i), 3);
    ParseZFilledInt(i, 3);
  }

  /** Distinct integer IDs get distinct codes. */
  lemma StudentCodeInjective(m: int, n: int)
    requires StudentCode(Int(m)) == StudentCode(Int(n))
    ensures m == n
  {
    StudentCodeRoundTrip(m);
    StudentCodeRoundTrip(n);
  }

  /** A one-digit negative ID keeps its sign first: -5 gives "EST-05". */
  lemma NegativeStudentCode(d: int)
    requires 1 <= d <= 9
    ensures StudentCode(Int(-d)) == "EST-0" + [DigitChar(d)]
  {
    var t := "-" + [DigitChar(d)];
    assert CellText(Int(-d)) == t by {
      assert NatToString(d) == [DigitChar(d)];
    }
    assert ZFill(t, 3) == "-0" + [DigitChar(d)] by {
      assert Signed(t) && |t| == 2 && t[1..] == [DigitChar(d)];
      assert Zeros(1) == "0";
    }
  }

  // ----- rows -----

  /** One spreadsheet row: column name to cell. */
  type Row = map<string, Cell>

  /** `row.get(col)`: a missing column reads as a missing value. */
  function At(row: Row, col: string): (c: Cell)
    ensures col !in row ==> c.NaN?
  {
    if col in row then row[col] else NaN
  }

  /** `row[col]`: KeyError when the column is missing. */
  function Index(row: Row, col: string): (r: Result<Cell>)
    ensures r.Ok? <==> col in row
    ensures r.Ok? ==> r.value == row[col]
  {
    if col in row then Ok(row[col]) else Err("KeyError")
  }

  /** `int(cell)` for a cell known not to be NaN: floats truncate, text must parse. */
  function IntOfCell(c: Cell): (r: Result<int>)
    ensures c.Int? ==> r == Ok(c.i)
    ensures c.Float? ==> r == Ok(TruncToInt(c.x))
    ensures c.Str? ==> (r.Ok? <==> ParseInt(c.s).Some?)
  {
    match c
    case Int(i) => Ok(i)
    case Float(x, _) => Ok(TruncToInt(x))
    case Str(s) => if ParseInt(s).Some? then Ok(ParseInt(s).value) else Err("ValueError")
    case NaN => Err("ValueError")
  }

  /** `int(row[col]) if pd.notna(row.get(col)) else default`. */
  function IntOr(row: Row, col: string, default: Option<int>): (r: Result<Option<int>>)
    ensures At(row, col).NaN? ==> r == Ok(default)
    ensures !At(row, col).NaN? ==> (r.Ok? <==> IntOfCell(row[col]).Ok?)
    ensures !At(row, col).NaN? && r.Ok? ==> r.value == Some(IntOfCell(row[col]).value)
  {
    var c := At(row, col);
    if c.NaN? then Ok(default)
    else match IntOfCell(c)
      case Ok(i) => Ok(Some(i))
      case Err(e) => Err(e)
  }

  /** `float(cell)` for a cell known not to be NaN; text goes to the parser. */
  function RealOfCell(c: Cell, parseFloat: string -> Option<real>): (r: Result<real>)
    ensures c.Int? ==> r == Ok(c.i as real)
    ensures c.Float? ==> r == Ok(c.x)
  {
    match c
    case Int(i) => Ok(i as real)
    case Float(x, _) => Ok(x)
    case Str(s) => if parseFloat(s).Some? then Ok(parseFloat(s).value) else Err("ValueError")
    case NaN => Err("ValueError")
  }

  /** `str(row.get(col, '')).strip() if pd.notna(row.get(col)) else None`. */
  function TextOrNone(row: Row, col: string): (r: Option<string>)
    ensures At(row, col).NaN? <==> r.None?
    ensures r.Some? ==> r.value == Strip(CellText(row[col]))
  {
    var c := At(row, col);
    if c.NaN? then None else Some(Strip(CellText(c)))
  }

  // ----- converting every row -----

  /** Every row converted in order; the first row whose conversion raises stops the script. */
  function Collect<T, U>(xs: seq<T>, f: T -> Result<U>): Result<seq<U>> {
    if xs == [] then Ok([])
    else
      match Collect(xs[..|xs| - 1], f)
      case Err(e) => Err(e)
      case Ok(ys) =>
        match f(xs[|xs| - 1])
        case Err(e) => Err(e)
        case Ok(y) => Ok(ys + [y])
  }

  /** One record per row, in row order, exactly when no row raises. */
  lemma {:induction false} CollectOneToOne<T, U>(xs: seq<T>, f: T -> Result<U>)
    ensures Collect(xs, f).Ok? <==> forall i :: 0 <= i < |xs| ==> f(xs[i]).Ok?
    ensures Collect(xs, f).Ok? ==>
      |Collect(xs, f).value| == |xs| && forall i :: 0 <= i < |xs| ==> Collect(xs, f).value[i] == f(xs[i]).value
  {
    if xs != [] {
      var init := xs[..|xs| - 1];
      CollectOneToOne(init, f);
      forall i | 0 <= i < |init| ensures init[i] == xs[i] { }
    }
  }

  /** A raising row ends the conversion with its error, whatever follows. */
  lemma {:induction false} CollectStops<T, U>(xs: seq<T>, f: T -> Result<U>, i: nat)
    requires i < |xs| && Collect(xs[..i], f).Ok? && f(xs[i]).Err?
    ensures Collect(xs, f) == Err(f(xs[i]).error)
    decreases |xs| - i
  {
    if i + 1 == |xs| {
      assert xs[..|xs| - 1] == xs[..i];
    } else {
      var init := xs[..|xs| - 1];
      assert init[..i] == xs[..i];
      CollectStops(init, f, i);
    }
  }

  /** A row that converts extends the records by its own. */
  lemma CollectStep<T, U>(xs: seq<T>, f: T -> Result<U>, i: nat)
    requires i < |xs| && Collect(xs[..i], f).Ok? && f(xs[i]).Ok?
    ensures Collect(xs[..i + 1], f) == Ok(Collect(xs[..i], f).value + [f(xs[i]).value])
  {
    assert xs[..i + 1][..i] == xs[..i];
  }

  /**
   * The loop every `prepare_*_table` runs: convert each row in order and
   * append its record; a row whose conversion raises stops the script.
   */
  method CollectRows<T, U>(xs: seq<T>, f: T -> Result<U>) returns (r: Result<seq<U>>)
    ensures r == Collect(xs, f)
    ensures r.Ok? <==> forall i :: 0 <= i < |xs| ==> f(xs[i]).Ok?
    ensures r.Ok? ==> |r.value| == |xs| && forall i :: 0 <= i < |xs| ==> f(xs[i]) == Ok(r.value[i])
  {
    var out: seq<U> := [];
    var i := 0;
    while i < |xs|
      invariant 0 <= i <= |xs|
      invariant Collect(xs[..i], f) == Ok(out)
    {
      var y := f(xs[i]);
      if y.Err? {
        r := Err(y.error);
        CollectStops(xs, f, i);
        CollectOneToOne(xs, f);
        return;
      }
      CollectStep(xs, f, i);
      out := out + [y.value];
      i := i + 1;
    }
    assert xs[..i] == xs;
    r := Ok(out);
    CollectOneToOne(xs, f);
  }

  // ----- batches -----

  function Min(a: int, b: int): int {
    if a <= b then a else b
  }

  /** `data[i:i + batch_size]` at the current position: the next batch. */
  function NextBatch<T>(rest: seq<T>, size: nat): (b: seq<T>)
    requires size > 0
    ensures |b| <= |rest| && b == rest[..|b|]
    ensures rest != [] ==> 0 < |b| <= size
  {
    rest[..Min(size, |rest|)]
  }

  /** The batches of `range(0, len(data), batch_size)`. */
  function Batches<T>(data: seq<T>, size: nat): seq<seq<T>>
    requires size > 0
    decreases |data|
  {
    if data == [] then [] else [NextBatch(data, size)] + Batches(data[|NextBatch(data, size)|..], size)
  }

  function Concat<T>(bs: seq<seq<T>>): seq<T> {
    if bs == [] then [] else bs[0] + Concat(bs[1..])
  }

  /** The batches cover the data in order. */
  lemma {:induction false} BatchesCoverData<T>(data: seq<T>, size: nat)
    requires size > 0
    ensures Concat(Batches(data, size)) == data
    decreases |data|
  {
    if data != [] {
      var b := NextBatch(data, size);
      var bs := Batches(data, size);
      BatchesCoverData(data[|b|..], size);
      assert bs[0] == b && bs[1..] == Batches(data[|b|..], size);
      assert Concat(bs) == b + Concat(bs[1..]);
      assert data == b + data[|b|..];
    }
  }

  /** Each batch holds between 1 and `size` records. */
  lemma {:induction false} BatchSizes<T>(data: seq<T>, size: nat)
    requires size > 0
    ensures forall k :: 0 <= k < |Batches(data, size)| ==> 0 < |Batches(data, size)[k]| <= size
    decreases |data|
  {
    if data != [] {
      var b := NextBatch(data, size);
      var bs := Batches(data, size);
      BatchSizes(data[|b|..], size);
      assert bs[1..] == Batches(data[|b|..], size);
      forall k | 1 <= k < |bs| ensures 0 < |bs[k]| <= size {
        assert bs[k] == bs[1..][k - 1];
      }
    }
  }

  // ----- insert_data without retry (import_data_to_supabase.py) -----

  /** Records inserted when a failed batch is logged and skipped. */
  function InsertedSkipping<T>(rest: seq<T>, size: nat, accepts: seq<T> -> bool): (n: nat)
    requires size > 0
    ensures n <= |rest|
    decreases |rest|
  {
    if rest == [] then 0
    else
      var b := NextBatch(rest, size);
      (if accepts(b) then |b| else 0) + InsertedSkipping(rest[|b|..], size, accepts)
  }

  /** `insert_data`: one insert request per batch; a failure only loses that batch. */
  method InsertSkipping<T>(data: seq<T>, batchSize: nat, accepts: seq<T> -> bool) returns (totalInserted: nat)
    requires batchSize > 0
    ensures totalInserted == InsertedSkipping(data, batchSize, accepts)
    ensures totalInserted <= |data|
  {
    totalInserted := 0;
    var i := 0;
    while i < |data|
      invariant 0 <= i <= |data|
      invariant totalInserted + InsertedSkipping(data[i..], batchSize, accepts) == InsertedSkipping(data, batchSize, accepts)
      decreases |data| - i
    {
      var batch := NextBatch(data[i..], batchSize);
      assert InsertedSkipping(data[i..], batchSize, accepts)
        == (if accepts(batch) then |batch| else 0) + InsertedSkipping(data[i + |batch|..], batchSize, accepts) by {
        assert data[i..][|batch|..] == data[i + |batch|..];
      }
      if accepts(batch) {
        totalInserted := totalInserted + |batch|;
      }
      i := i + |batch|;
    }
  }

  /** The count is the number of records in accepted batches; with every batch accepted it is all of them. */
  lemma {:induction false} SkippingCountsAcceptedBatches<T>(data: seq<T>, size: nat, accepts: seq<T> -> bool)
    requires size > 0
    ensures InsertedSkipping(data, size, accepts) == AcceptedSize(Batches(data, size), accepts)
    ensures (forall k :: 0 <= k < |Batches(data, size)| ==> accepts(Batches(data, size)[k]))
            ==> InsertedSkipping(data, size, accepts) == |data|
    decreases |data|
  {
    if data != [] {
      var b := NextBatch(data, size);
      SkippingCountsAcceptedBatches(data[|b|..], size, accepts);
      assert Batches(data, size)[1..] == Batches(data[|b|..], size);
      if forall k :: 0 <= k < |Batches(data, size)| ==> accepts(Batches(data, size)[k]) {
        assert accepts(Batches(data, size)[0]);
        forall k | 0 <= k < |Batches(data[|b|..], size)| ensures accepts(Batches(data[|b|..], size)[k]) {
          assert Batches(data[|b|..], size)[k] == Batches(data, size)[k + 1];
        }
      }
    }
  }

  function AcceptedSize<T>(bs: seq<seq<T>>, accepts: seq<T> -> bool): nat {
    if bs == [] then 0 else (if accepts(bs[0]) then |bs[0]| else 0) + AcceptedSize(bs[1..], accepts)
  }

  // ----- insert_data with row-by-row retry (import_fase2_csv.py) -----

  /** Failing batches retried one record at a time. */
  const RetriedFailures: nat := 3

  datatype InsertState = InsertState(inserted: nat, errors: nat)

  function CountAccepted<T>(items: seq<T>, acceptsOne: T -> bool): (n: nat)
    ensures n <= |items|
  {
    if items == [] then 0 else (if acceptsOne(items[0]) then 1 else 0) + CountAccepted(items[1..], acceptsOne)
  }

  /** The state after one batch: a failed batch is retried per record while it is among the first three failures. */
  function AfterBatch<T>(st: InsertState, b: seq<T>, accepts: seq<T> -> bool, acceptsOne: T -> bool): InsertState {
    if accepts(b) then InsertState(st.inserted + |b|, st.errors)
    else if st.errors + 1 <= RetriedFailures then InsertState(st.inserted + CountAccepted(b, acceptsOne), st.errors + 1)
    else InsertState(st.inserted, st.errors + 1)
  }

  /** The state after the batches of `rest`. */
  function Retrying<T>(st: InsertState, rest: seq<T>, size: nat, accepts: seq<T> -> bool, acceptsOne: T -> bool): InsertState
    requires size > 0
    decreases |rest|
  {
    if rest == [] then st
    else
      var b := NextBatch(rest, size);
      Retrying(AfterBatch(st, b, accepts, acceptsOne), rest[|b|..], size, accepts, acceptsOne)
  }

  lemma RetryingStep<T>(st: InsertState, data: seq<T>, i: nat, b: seq<T>, size: nat, accepts: seq<T> -> bool, acceptsOne: T -> bool)
    requires size > 0 && i < |data| && b == data[i..Min(i + size, |data|)]
    ensures i + |b| <= |data|
    ensures Retrying(st, data[i..], size, accepts, acceptsOne)
      == Retrying(AfterBatch(st, b, accepts, acceptsOne), data[i + |b|..], size, accepts, acceptsOne)
  {
    assert b == NextBatch(data[i..], size);
    assert data[i..][|b|..] == data[i + |b|..];
  }

  /** `insert_data`: nothing for empty data; batches in order, with row-by-row retry of the first three failed ones. */
  method InsertRetrying<T>(data: seq<T>, batchSize: nat, accepts: seq<T> -> bool, acceptsOne: T -> bool)
    returns (st: InsertState)
    requires batchSize > 0
    ensures st == Retrying(InsertState(0, 0), data, batchSize, accepts, acceptsOne)
    ensures data == [] ==> st == InsertState(0, 0)
  {
    if data == [] {
      return InsertState(0, 0);
    }
    st := InsertState(0, 0);
    var i := 0;
    while i < |data|
      invariant 0 <= i <= |data|
      invariant Retrying(st, data[i..], batchSize, accepts, acceptsOne)
                == Retrying(InsertState(0, 0), data, batchSize, accepts, acceptsOne)
      decreases |data| - i
    {
      var batch := data[i..Min(i + batchSize, |data|)];
      RetryingStep(st, data, i, batch, batchSize, accepts, acceptsOne);
      st := InsertBatch(st, batch, accepts, acceptsOne);
      i := i + |batch|;
    }
    assert data[i..] == [];
  }

  /** One batch of the retrying loop: insert it whole, or count a failure and retry it record by record. */
  method InsertBatch<T>(st: InsertState, batch: seq<T>, accepts: seq<T> -> bool, acceptsOne: T -> bool)
    returns (next: InsertState)
    ensures next == AfterBatch(st, batch, accepts, acceptsOne)
  {
    var totalInserted := st.inserted;
    var errors := st.errors;
    if accepts(batch) {
      totalInserted := totalInserted + |batch|;
    } else {
      errors := errors + 1;
      if errors <= RetriedFailures {
        var n := InsertOneByOne(batch, acceptsOne);
        totalInserted := totalInserted + n;
      }
    }
    next := InsertState(totalInserted, errors);
  }

  /** The retry of one failed batch: one insert request per record. */
  method InsertOneByOne<T>(batch: seq<T>, acceptsOne: T -> bool) returns (inserted: nat)
    ensures inserted == CountAccepted(batch, acceptsOne)
  {
    inserted := 0;
    var j := 0;
    while j < |batch|
      invariant 0 <= j <= |batch|
      invariant inserted + CountAccepted(batch[j..], acceptsOne) == CountAccepted(batch, acceptsOne)
    {
      assert batch[j..][1..] == batch[j + 1..];
      if acceptsOne(batch[j]) {
        inserted := inserted + 1;
      }
      j := j + 1;
    }
  }

  function FailedBatches<T>(bs: seq<seq<T>>, accepts: seq<T> -> bool): nat {
    if bs == [] then 0 else (if accepts(bs[0]) then 0 else 1) + FailedBatches(bs[1..], accepts)
  }

  /**
   * Never more records than the data holds; the error count is the number
   * of failed batches; and once three batches have failed, a failed batch
   * inserts nothing.
   */
  lemma {:induction false} RetryingBounds<T>(st: InsertState, data: seq<T>, size: nat, accepts: seq<T> -> bool, acceptsOne: T -> bool)
    requires size > 0
    ensures Retrying(st, data, size, accepts, acceptsOne).inserted <= st.inserted + |data|
    ensures Retrying(st, data, size, accepts, acceptsOne).errors == st.errors + FailedBatches(Batches(data, size), accepts)
    ensures st.errors >= RetriedFailures ==>
      Retrying(st, data, size, accepts, acceptsOne).inserted == st.inserted + AcceptedSize(Batches(data, size), accepts)
    decreases |data|
  {
    if data != [] {
      var b := NextBatch(data, size);
      assert Batches(data, size)[0] == b;
      assert Batches(data, size)[1..] == Batches(data[|b|..], size);
      RetryingBounds(AfterBatch(st, b, accepts, acceptsOne), data[|b|..], size, accepts, acceptsOne);
    }
  }
}
