/**
 * The distance-to-school script: route distances read from the location
 * spreadsheets, bucketed into the five accessibility categories the database
 * accepts, and matched to student addresses by normalised text and word
 * overlap. Reading the CSV files and updating the database are not part of
 * this model; `float()` on text is the parameter `parseFloat`.
 */
module Distance {
  import opened Py
  import opened Text

  // ----- parse_distance -----

  /**
   * `parse_distance`: NaN, "N/A" and blank cells have no distance; otherwise
   * the text with commas read as decimal points goes to `float()`.
   */
  function ParseDistance(c: Cell, parseFloat: string -> Option<real>): (r: Option<real>)
    ensures c.NaN? || c == Str("N/A") ==> r.None?
    ensures !c.NaN? && Strip(CellText(c)) == "" ==> r.None?
    ensures r.Some? ==> r == parseFloat(Strip(ReplaceAll(CellText(c), ",", ".")))
  {
    if c.NaN? || c == Str("N/A") || Strip(CellText(c)) == "" then None
    else parseFloat(Strip(ReplaceAll(CellText(c), ",", ".")))
  }

  /** The text handed to `float()` never contains a comma. */
  lemma ParsedTextHasNoComma(c: Cell)
    requires !c.NaN?
    ensures ',' !in Strip(ReplaceAll(CellText(c), ",", "."))
  {
    var t := ReplaceAll(CellText(c), ",", ".");
    ReplaceAllRemovesChar(CellText(c), ',', ".");
    ContainsChars(t, Strip(t));
  }

  // ----- categorize_distance -----

  /** The five values the database's accessibility column accepts, nearest first. */
  datatype Category = MuyCerca | Cerca | Moderado | Lejos | MuyLejos

  function CategoryName(c: Category): string {
    match c
    case MuyCerca => "Muy cerca"
    case Cerca => "Cerca"
    case Moderado => "Moderado"
    case Lejos => "Lejos"
    case MuyLejos => "Muy lejos"
  }

  function Remoteness(c: Category): nat {
    match c
    case MuyCerca => 0
    case Cerca => 1
    case Moderado => 2
    case Lejos => 3
    case MuyLejos => 4
  }

  /** `categorize_distance`: upper bounds 1, 2, 5 and 10 km, each inclusive. */
  function CategorizeDistance(d: Option<real>): (r: Option<Category>)
    ensures r.None? <==> d.None?
    ensures d.Some? ==>
      (r.value == MuyCerca <==> d.value <= 1.0)
      && (r.value == Cerca <==> 1.0 < d.value <= 2.0)
      && (r.value == Moderado <==> 2.0 < d.value <= 5.0)
      && (r.value == Lejos <==> 5.0 < d.value <= 10.0)
      && (r.value == MuyLejos <==> d.value > 10.0)
  {
    match d
    case None => None
    case Some(km) =>
      Some(if km <= 1.0 then MuyCerca
           else if km <= 2.0 then Cerca
           else if km <= 5.0 then Moderado
           else if km <= 10.0 then Lejos
           else MuyLejos)
  }

  /** A longer distance never gets a nearer category. */
  lemma CategorizeMonotone(a: real, b: real)
    requires a <= b
    ensures Remoteness(CategorizeDistance(Some(a)).value) <= Remoteness(CategorizeDistance(Some(b)).value)
  {
  }

  // ----- normalize_address -----

  /** The words `normalize_address` deletes, in the order it deletes them. */
  const NoiseWords: seq<string> := ["barrio ", "cdla ", "cdla. ", "urb ", "urb. ", "urbanizacion ",
                                   "parroquia ", "calle ", "av ", "avenida ", "av. ", "sector "]

  /** Each pattern deleted in turn (deleting "" changes nothing, as in Python). */
  function DeleteEach(s: string, pats: seq<string>): string
    decreases |pats|
  {
    if pats == [] then s
    else if pats[0] == [] then DeleteEach(s, pats[1..])
    else DeleteEach(ReplaceAll(s, pats[0], ""), pats[1..])
  }

  lemma {:induction false} DeleteEachChars(s: string, pats: seq<string>, c: char)
    requires c in DeleteEach(s, pats)
    ensures c in s
    decreases |pats|
  {
    if pats != [] {
      if pats[0] == [] {
        DeleteEachChars(s, pats[1..], c);
      } else {
        DeleteEachChars(ReplaceAll(s, pats[0], ""), pats[1..], c);
        ReplaceAllChars(s, pats[0], "", c);
      }
    }
  }

  /** After the noise words: quotes dropped, commas made spaces. */
  function Unquote(s: string): string {
    ReplaceAll(ReplaceAll(ReplaceAll(s, "\"", ""), "'", ""), ",", " ")
  }

  lemma UnquoteChars(s: string, c: char)
    requires c in Unquote(s)
    ensures c in s || c == ' '
    ensures c != '"' && c != '\'' && c != ','
  {
    var t1 := ReplaceAll(s, "\"", "");
    var t2 := ReplaceAll(t1, "'", "");
    ReplaceAllRemovesChar(s, '"', "");
    ReplaceAllRemovesChar(t1, '\'', "");
    ReplaceAllRemovesChar(t2, ',', " ");
    ReplaceAllChars(t2, ",", " ", c);
    if c in t2 {
      ReplaceAllChars(t1, "'", "", c);
      ReplaceAllChars(s, "\"", "", c);
    }
  }

  /** `normalize_address`: "" for NaN; otherwise lowered, stripped, cleaned and re-spaced. */
  function NormalizeAddress(c: Cell): (r: string)
    ensures c.NaN? ==> r == ""
    ensures NormalSpacing(r)
    ensures IsLowered(r)
    ensures '"' !in r && '\'' !in r && ',' !in r
  {
    if c.NaN? then ""
    else
      var addr := Strip(Lower(CellText(c)));
      var cleaned := Unquote(DeleteEach(addr, NoiseWords));
      var r := JoinSpace(Split(cleaned));
      CleanedIsClean(CellText(c));
      NormalizedChars(cleaned, r);
      r
  }

  /** A character left after lowering, stripping and cleaning is no capital and no quote or comma. */
  lemma CleanedChar(text: string, c: char)
    requires c in Unquote(DeleteEach(Strip(Lower(text)), NoiseWords))
    ensures !IsUpperLetter(c) && c != '"' && c != '\'' && c != ','
  {
    var lowered := Lower(text);
    LowerIsLowered(text);
    ContainedLowered(lowered, Strip(lowered));
    UnquotedChar(Strip(lowered), NoiseWords, c);
  }

  /** Cleaning a text without capitals leaves no capital, quote or comma. */
  lemma UnquotedChar(addr: string, words: seq<string>, c: char)
    requires IsLowered(addr) && c in Unquote(DeleteEach(addr, words))
    ensures !IsUpperLetter(c) && c != '"' && c != '\'' && c != ','
  {
    UnquoteChars(DeleteEach(addr, words), c);
    if c != ' ' {
      DeleteEachChars(addr, words, c);
      LoweredChar(addr, c);
    }
  }

  /** No capital, quote or comma. */
  predicate Clean(s: string) {
    forall i :: 0 <= i < |s| ==> !IsUpperLetter(s[i]) && s[i] != '"' && s[i] != '\'' && s[i] != ','
  }

  lemma CleanedIsClean(text: string)
    ensures Clean(Unquote(DeleteEach(Strip(Lower(text)), NoiseWords)))
  {
    var cleaned := Unquote(DeleteEach(Strip(Lower(text)), NoiseWords));
    forall i | 0 <= i < |cleaned|
      ensures !IsUpperLetter(cleaned[i]) && cleaned[i] != '"' && cleaned[i] != '\'' && cleaned[i] != ','
    {
      CleanedChar(text, cleaned[i]);
    }
  }

  lemma NormalizedChars(cleaned: string, r: string)
    requires Clean(cleaned)
    requires r == JoinSpace(Split(cleaned))
    ensures NormalSpacing(r)
    ensures IsLowered(r)
    ensures '"' !in r && '\'' !in r && ',' !in r
  {
    JoinWordsSpacing(Split(cleaned));
    forall i | 0 <= i < |r|
      ensures !IsUpperLetter(r[i]) && r[i] != '"' && r[i] != '\'' && r[i] != ','
    {
      JoinChars(Split(cleaned), i);
      if r[i] != ' ' {
        var k, j :| 0 <= k < |Split(cleaned)| && 0 <= j < |Split(cleaned)[k]| && r[i] == Split(cleaned)[k][j];
        SplitChars(cleaned, k, j);
      }
    }
  }

  // ----- load_location_data: the lookup -----

  /** One location row: its parsed distance and its normalised address. */
  datatype Location = Location(distance: Option<real>, address: string)

  /**
   * A value of the `distance_km` column: kilometres, or NaN. Once one row
   * parses, `apply` stores the column as floats and every row without a
   * distance holds NaN, which is not None.
   */
  datatype Km = Km(km: real) | NaNKm

  /** Some row has a parsed distance, so the column is stored as floats. */
  predicate AnyParsed(rows: seq<Location>) {
    exists i :: 0 <= i < |rows| && rows[i].distance.Some?
  }

  /** `row['distance_km']`, or None when it is None. */
  function Stored(row: Location, floatColumn: bool): Option<Km> {
    if row.distance.Some? then Some(Km(row.distance.value))
    else if floatColumn then Some(NaNKm)
    else None
  }

  /** `categorize_distance` on a stored value: NaN fails every bound and is "Muy lejos". */
  function CategorizeStored(d: Km): (c: Category)
    ensures d.NaNKm? ==> c == MuyLejos
    ensures d.Km? ==> Some(c) == CategorizeDistance(Some(d.km))
  {
    match d
    case NaNKm => MuyLejos
    case Km(km) => CategorizeDistance(Some(km)).value
  }

  /** The lookup as an insertion-ordered dictionary: address and distance, addresses distinct. */
  type Lookup = seq<(string, Km)>

  function Keys(l: Lookup): set<string> {
    set e | e in l :: e.0
  }

  /** The lookup after the rows, over a column stored as floats or not. */
  function LookupFrom(rows: seq<Location>, floatColumn: bool): Lookup {
    if rows == [] then []
    else
      var prefix := LookupFrom(rows[..|rows| - 1], floatColumn);
      var row := rows[|rows| - 1];
      var d := Stored(row, floatColumn);
      if d.Some? && row.address != "" && row.address !in Keys(prefix)
      then prefix + [(row.address, d.value)]
      else prefix
  }

  /**
   * The lookup after the rows: the first stored distance of each non-empty
   * address. With no parsed row it is empty; with one, every non-empty
   * address is in it.
   */
  function LookupOf(rows: seq<Location>): (l: Lookup)
    ensures !AnyParsed(rows) ==> l == []
    ensures AnyParsed(rows) ==> forall i :: 0 <= i < |rows| && rows[i].address != "" ==> rows[i].address in Keys(l)
  {
    LookupFromKeepsFirst(rows, AnyParsed(rows));
    if !AnyParsed(rows) then
      NothingStored(rows);
      LookupFrom(rows, false)
    else
      LookupFrom(rows, true)
  }

  /** Without a float column and without a parsed row, nothing enters the lookup. */
  lemma {:induction false} NothingStored(rows: seq<Location>)
    requires !AnyParsed(rows)
    ensures LookupFrom(rows, false) == []
  {
    if rows != [] {
      var init := rows[..|rows| - 1];
      assert !AnyParsed(init) by {
        forall i | 0 <= i < |init| ensures init[i].distance.None? {
          assert init[i] == rows[i];
        }
      }
      NothingStored(init);
      assert rows[|rows| - 1].distance.None?;
    }
  }

  /** The loop of `load_location_data` that fills `address_distance`, after `apply(parse_distance)`. */
  method BuildLookup(rows: seq<Location>) returns (lookup: Lookup)
    ensures lookup == LookupOf(rows)
  {
    var floatColumn := exists i :: 0 <= i < |rows| && rows[i].distance.Some?;
    lookup := [];
    var keys: set<string> := {};
    var i := 0;
    while i < |rows|
      invariant 0 <= i <= |rows|
      invariant lookup == LookupFrom(rows[..i], floatColumn)
      invariant keys == Keys(lookup)
    {
      assert rows[..i + 1][..i] == rows[..i];
      var row := rows[i];
      var d := Stored(row, floatColumn);
      if d.Some? {
        if row.address != "" && row.address !in keys {
          lookup := lookup + [(row.address, d.value)];
          keys := keys + {row.address};
        }
      }
      i := i + 1;
    }
    assert rows[..i] == rows;
  }

  predicate DistinctKeys(l: Lookup) {
    forall i, j :: 0 <= i < j < |l| ==> l[i].0 != l[j].0
  }

  /** Row `i` is the first row with address `e.0` and a stored value, and that value is `e.1`. */
  predicate FirstRowOf(rows: seq<Location>, floatColumn: bool, e: (string, Km)) {
    e.0 != "" &&
    exists i :: 0 <= i < |rows| && rows[i].address == e.0 && Stored(rows[i], floatColumn) == Some(e.1)
      && forall j :: 0 <= j < i ==> rows[j].address == e.0 ==> Stored(rows[j], floatColumn).None?
  }

  lemma {:induction false} LookupFromKeepsFirst(rows: seq<Location>, floatColumn: bool)
    ensures DistinctKeys(LookupFrom(rows, floatColumn))
    ensures forall e :: e in LookupFrom(rows, floatColumn) ==> FirstRowOf(rows, floatColumn, e)
    ensures forall i :: 0 <= i < |rows| && Stored(rows[i], floatColumn).Some? && rows[i].address != "" ==>
      rows[i].address in Keys(LookupFrom(rows, floatColumn))
  {
    if rows != [] {
      var init := rows[..|rows| - 1];
      LookupFromKeepsFirst(init, floatColumn);
      var prefix := LookupFrom(init, floatColumn);
      var row := rows[|rows| - 1];
      var l := LookupFrom(rows, floatColumn);
      forall e | e in l ensures FirstRowOf(rows, floatColumn, e) {
        if e in prefix {
          var i :| 0 <= i < |init| && init[i].address == e.0 && Stored(init[i], floatColumn) == Some(e.1)
            && forall j :: 0 <= j < i ==> init[j].address == e.0 ==> Stored(init[j], floatColumn).None?;
          assert rows[i] == init[i];
          forall j | 0 <= j < i && rows[j].address == e.0 ensures Stored(rows[j], floatColumn).None? {
            assert init[j] == rows[j];
          }
        } else {
          assert e == (row.address, Stored(row, floatColumn).value);
          forall j | 0 <= j < |rows| - 1 && rows[j].address == e.0 ensures Stored(rows[j], floatColumn).None? {
            assert init[j] == rows[j];
          }
        }
      }
      forall i | 0 <= i < |rows| && Stored(rows[i], floatColumn).Some? && rows[i].address != ""
        ensures rows[i].address in Keys(l)
      {
        if i < |rows| - 1 {
          assert init[i] == rows[i];
          assert Keys(prefix) <= Keys(l);
        } else {
          assert (row.address, Stored(row, floatColumn).value) in l || row.address in Keys(prefix);
        }
      }
    }
  }

  /**
   * The lookup holds each non-empty address once, with the stored value of
   * its first row that has one, and nothing else.
   */
  lemma LookupKeepsFirst(rows: seq<Location>)
    ensures DistinctKeys(LookupOf(rows))
    ensures forall e :: e in LookupOf(rows) ==> FirstRowOf(rows, AnyParsed(rows), e)
    ensures forall i :: 0 <= i < |rows| && Stored(rows[i], AnyParsed(rows)).Some? && rows[i].address != "" ==>
      rows[i].address in Keys(LookupOf(rows))
  {
    LookupFromKeepsFirst(rows, AnyParsed(rows));
  }

  /**
   * Once one row parses, the first row of each address decides its entry,
   * even when that row has no distance: the entry is then NaN.
   */
  lemma FirstRowDecides(rows: seq<Location>, i: nat)
    requires AnyParsed(rows)
    requires i < |rows| && rows[i].address != ""
    requires forall j :: 0 <= j < i ==> rows[j].address != rows[i].address
    ensures rows[i].distance.None? ==> (rows[i].address, NaNKm) in LookupOf(rows)
    ensures rows[i].distance.Some? ==> (rows[i].address, Km(rows[i].distance.value)) in LookupOf(rows)
  {
    LookupKeepsFirst(rows);
    var l := LookupOf(rows);
    var a := rows[i].address;
    var e :| e in l && e.0 == a;
    var k :| 0 <= k < |rows| && rows[k].address == a && Stored(rows[k], true) == Some(e.1)
      && forall j :: 0 <= j < k ==> rows[j].address == a ==> Stored(rows[j], true).None?;
    assert !(k < i);
    assert !(k > i);
  }

  // ----- find_best_match -----

  function WordSet(s: string): set<string> {
    set w | w in Split(s)
  }

  /** `len(S & A) / max(len(S), len(A))`, or 0 when the sets share no word. */
  function Overlap(student: set<string>, addr: string): (score: real)
    ensures 0.0 <= score <= 1.0
  {
    var a := WordSet(addr);
    var common := student * a;
    if |common| == 0 then 0.0
    else
      assert |common| <= |student| && |common| <= |a| by {
        assert common <= student && common <= a;
        SubsetCard(common, student);
        SubsetCard(common, a);
      }
      var m := if |student| > |a| then |student| else |a|;
      RatioAtMostOne(|common|, m);
      |common| as real / m as real
  }

  lemma RatioAtMostOne(n: nat, m: nat)
    requires 0 < n <= m
    ensures 0.0 <= n as real / m as real <= 1.0
  {
    var q := n as real / m as real;
    assert q * m as real == n as real;
  }

  lemma SubsetCard<T>(a: set<T>, b: set<T>)
    requires a <= b
    ensures |a| <= |b|
  {
    assert b == a + (b - a);
  }

  /** The least overlap that can be a match. */
  const MatchThreshold: real := 0.3

  /** The best score and its distance over the entries: strictly better and above the threshold replaces. */
  function Best(student: set<string>, entries: Lookup): (b: (real, Option<Km>))
    ensures b.0 >= 0.0
  {
    if entries == [] then (0.0, None)
    else
      var prev := Best(student, entries[..|entries| - 1]);
      var e := entries[|entries| - 1];
      var score := Overlap(student, e.0);
      if score > prev.0 && score > MatchThreshold then (score, Some(e.1)) else prev
  }

  /** Best over one more entry. */
  lemma BestStep(student: set<string>, entries: Lookup, i: nat)
    requires i < |entries|
    ensures var prev := Best(student, entries[..i]);
      var score := Overlap(student, entries[i].0);
      Best(student, entries[..i + 1]) == if score > prev.0 && score > MatchThreshold then (score, Some(entries[i].1)) else prev
  {
    assert entries[..i + 1][..i] == entries[..i];
  }

  /** The first entry whose key is `k`, if any. */
  function Find(entries: Lookup, k: string): (r: Option<Km>)
    ensures r.Some? <==> k in Keys(entries)
  {
    if entries == [] then None
    else if entries[0].0 == k then Some(entries[0].1)
    else
      assert Keys(entries) == {entries[0].0} + Keys(entries[1..]);
      Find(entries[1..], k)
  }

  /** The scan of `find_best_match` over the lookup, in insertion order. */
  method BestOverlap(studentWords: set<string>, lookup: Lookup) returns (bestScore: real, bestMatch: Option<Km>)
    ensures (bestScore, bestMatch) == Best(studentWords, lookup)
  {
    bestMatch := None;
    bestScore := 0.0;
    var i := 0;
    while i < |lookup|
      invariant 0 <= i <= |lookup|
      invariant (bestScore, bestMatch) == Best(studentWords, lookup[..i])
    {
      BestStep(studentWords, lookup, i);
      var e := lookup[i];
      // An address sharing no word scores 0.0 and never replaces the best.
      var score := Overlap(studentWords, e.0);
      if score > bestScore && score > MatchThreshold {
        bestScore := score;
        bestMatch := Some(e.1);
      }
      i := i + 1;
    }
    assert lookup[..i] == lookup;
  }

  /** A Python-falsy cell: NaN, "", 0 or 0.0. */
  predicate FalsyCell(c: Cell) {
    c.NaN? || c == Str("") || c == Int(0) || (c.Float? && c.x == 0.0)
  }

  /** `find_best_match`: an exact hit on the normalised address, or the best word overlap. */
  method FindBestMatch(address: Cell, lookup: Lookup) returns (r: Option<Km>)
    ensures FalsyCell(address) ==> r.None?
    ensures !FalsyCell(address) && NormalizeAddress(address) in Keys(lookup) ==> r == Find(lookup, NormalizeAddress(address))
    ensures !FalsyCell(address) && NormalizeAddress(address) !in Keys(lookup) ==> r == Best(WordSet(NormalizeAddress(address)), lookup).1
  {
    if FalsyCell(address) {
      return None;
    }
    var norm := NormalizeAddress(address);
    var direct := Find(lookup, norm);
    if direct.Some? {
      return direct;
    }
    var _, bestMatch := BestOverlap(WordSet(norm), lookup);
    return bestMatch;
  }

  /** Every entry's overlap with the student's words is at most `v`. */
  predicate ScoresAtMost(student: set<string>, entries: Lookup, v: real) {
    forall k :: 0 <= k < |entries| ==> Overlap(student, entries[k].0) <= v
  }

  /** Some entry with distance `d` scores `v`, and every entry before it scores less. */
  predicate FirstAttains(student: set<string>, entries: Lookup, d: Km, v: real) {
    exists k :: 0 <= k < |entries| && entries[k].1 == d && Overlap(student, entries[k].0) == v
      && forall j :: 0 <= j < k ==> Overlap(student, entries[j].0) < v
  }

  /**
   * The best match is the distance of the FIRST entry with the greatest
   * overlap, provided that overlap is above 0.3; with no entry above 0.3
   * there is no match.
   */
  lemma {:induction false} BestIsFirstMaximum(student: set<string>, entries: Lookup)
    ensures var b := Best(student, entries);
      b.1.None? ==> b.0 == 0.0 && ScoresAtMost(student, entries, MatchThreshold)
    ensures var b := Best(student, entries);
      b.1.Some? ==>
        b.0 > MatchThreshold && ScoresAtMost(student, entries, b.0) && FirstAttains(student, entries, b.1.value, b.0)
  {
    if entries != [] {
      var init := entries[..|entries| - 1];
      BestIsFirstMaximum(student, init);
      var prev := Best(student, init);
      var e := entries[|entries| - 1];
      var score := Overlap(student, e.0);
      var bound := if prev.1.Some? then prev.0 else MatchThreshold;
      assert entries == init + [e];
      if score > prev.0 && score > MatchThreshold {
        ExtendScores(student, init, e, bound, score);
        FirstAttainsLast(student, init, e, bound);
      } else {
        ExtendScores(student, init, e, bound, bound);
        if prev.1.Some? {
          FirstAttainsExtend(student, init, e, prev.1.value, prev.0);
        }
      }
    }
  }

  /** An entry scoring above every earlier one is the first to attain its score. */
  lemma FirstAttainsLast(student: set<string>, init: Lookup, e: (string, Km), v: real)
    requires ScoresAtMost(student, init, v) && v < Overlap(student, e.0)
    ensures FirstAttains(student, init + [e], e.1, Overlap(student, e.0))
  {
    var entries := init + [e];
    var k := |init|;
    forall j | 0 <= j < k ensures Overlap(student, entries[j].0) < Overlap(student, e.0) {
      assert entries[j] == init[j];
    }
    assert entries[k] == e;
  }

  /** Appending an entry keeps the first entry attaining a score. */
  lemma FirstAttainsExtend(student: set<string>, init: Lookup, e: (string, Km), d: Km, v: real)
    requires FirstAttains(student, init, d, v)
    ensures FirstAttains(student, init + [e], d, v)
  {
    var entries := init + [e];
    var k :| 0 <= k < |init| && init[k].1 == d && Overlap(student, init[k].0) == v
      && forall j :: 0 <= j < k ==> Overlap(student, init[j].0) < v;
    assert entries[k] == init[k];
    forall j | 0 <= j < k ensures Overlap(student, entries[j].0) < v {
      assert entries[j] == init[j];
    }
  }

  /** A bound on the first entries and on one more entry bounds them all. */
  lemma ExtendScores(student: set<string>, init: Lookup, e: (string, Km), v: real, w: real)
    requires ScoresAtMost(student, init, v) && Overlap(student, e.0) <= w && v <= w
    ensures ScoresAtMost(student, init + [e], w)
  {
    forall k | 0 <= k < |init + [e]| ensures Overlap(student, (init + [e])[k].0) <= w {
      if k < |init| {
        assert (init + [e])[k] == init[k];
      }
    }
  }
}
