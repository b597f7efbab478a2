/**
 * Values as the dashboard's TypeScript hooks see a JSON response: undefined
 * for a missing key, null, booleans, numbers (with the text JavaScript prints
 * for them), NaN, strings, arrays and objects.
 */
module JsValues {
  import opened Py
  import opened Strings = Text

  datatype Js =
    | Undefined
    | JsNull
    | JsBool(b: bool)
    | JsNum(x: real, text: string)
    | JsNaN
    | JsStr(s: string)
    | JsArr(items: seq<Js>)
    | JsObj(fields: map<string, Js>)

  /** JavaScript truthiness: undefined, null, false, 0, NaN and "" are falsy. */
  predicate JsTruthy(v: Js) {
    match v
    case Undefined => false
    case JsNull => false
    case JsBool(b) => b
    case JsNum(x, _) => x != 0.0
    case JsNaN => false
    case JsStr(s) => s != ""
    case JsArr(_) => true
    case JsObj(_) => true
  }

  /** `obj.key`: undefined when the key is missing. */
  function Prop(obj: map<string, Js>, key: string): (v: Js)
    ensures key !in obj ==> v == Undefined
    ensures key in obj ==> v == obj[key]
  {
    if key in obj then obj[key] else Undefined
  }

  /** `a || b`. */
  function Or(a: Js, b: Js): (r: Js)
    ensures JsTruthy(a) ==> r == a
    ensures !JsTruthy(a) ==> r == b
  {
    if JsTruthy(a) then a else b
  }

  /** `Math.round(x)` on a finite number: the nearest integer, halves rounded up. */
  function MathRound(x: real): (r: int)
    ensures x - 0.5 < r as real <= x + 0.5
  {
    (x + 0.5).Floor
  }

  /** The integers `Math.round` can pick are unique: it is the integer within half a unit, ties upward. */
  lemma MathRoundUnique(x: real, n: int)
    requires x - 0.5 < n as real <= x + 0.5
    ensures MathRound(x) == n
  {
  }

  // ----- ToNumber -----

  /** JavaScript's white space and line terminators, which `Number()` trims from text. */
  predicate IsJsSpace(c: char) {
    c == ' ' || c == '\t' || c == '\n' || c == '\r' || c == '\U{0B}' || c == '\U{0C}'
    || c == '\U{A0}' || c == '\U{1680}' || ('\U{2000}' <= c && c <= '\U{200A}')
    || c == '\U{2028}' || c == '\U{2029}' || c == '\U{202F}' || c == '\U{205F}'
    || c == '\U{3000}' || c == '\U{FEFF}'
  }

  /** The text without JavaScript white space at either end. */
  function JsTrim(s: string): (t: string)
    ensures |t| <= |s|
    ensures t != [] ==> !IsJsSpace(t[0]) && !IsJsSpace(t[|t| - 1])
    ensures t == [] <==> forall i :: 0 <= i < |s| ==> IsJsSpace(s[i])
    ensures (s == [] || (!IsJsSpace(s[0]) && !IsJsSpace(s[|s| - 1]))) ==> t == s
    decreases |s|
  {
    if s == [] then s
    else if IsJsSpace(s[0]) then
      var t := JsTrim(s[1..]);
      assert forall i :: 1 <= i < |s| ==> s[i] == s[1..][i - 1];
      t
    else if IsJsSpace(s[|s| - 1]) then
      var t := JsTrim(s[..|s| - 1]);
      assert forall i :: 0 <= i < |s| - 1 ==> s[i] == s[..|s| - 1][i];
      t
    else s
  }

  function Pow10(n: nat): (p: nat)
    ensures p >= 1
  {
    if n == 0 then 1 else 10 * Pow10(n - 1)
  }

  /** The position of the first '.' in the text, if there is one. */
  function DotAt(t: string): (r: Option<nat>)
    ensures r.Some? ==> r.value < |t| && t[r.value] == '.' && '.' !in t[..r.value]
    ensures r.None? ==> '.' !in t
  {
    if t == [] then None
    else if t[0] == '.' then Some(0)
    else
      var r := DotAt(t[1..]);
      assert t == [t[0]] + t[1..];
      if r.None? then None
      else
        assert t[..r.value + 1] == [t[0]] + t[1..][..r.value];
        Some(r.value + 1)
  }

  /** An unsigned decimal literal: digits, a '.', more digits, with a digit on at least one side. */
  function UnsignedDecimal(t: string): (r: Option<real>)
    ensures r.Some? ==> r.value >= 0.0
    ensures t != [] && AllDigits(t) ==> r == Some(DecimalValue(t) as real)
  {
    match DotAt(t)
    case None => if t != [] && AllDigits(t) then Some(DecimalValue(t) as real) else None
    case Some(i) =>
      var whole, frac := t[..i], t[i + 1..];
      if (whole != [] || frac != []) && AllDigits(whole) && AllDigits(frac) then
        Some(DecimalValue(whole) as real + DecimalValue(frac) as real / Pow10(|frac|) as real)
      else None
  }

  /**
   * `Number(s)` on a string in decimal notation: white space trimmed, nothing
   * left is 0, otherwise an optional sign and an unsigned decimal literal;
   * None stands for NaN.
   */
  function StringToNumber(s: string): (r: Option<real>)
    ensures JsTrim(s) == [] ==> r == Some(0.0)
    ensures JsTrim(s) != [] && r.Some? ==>
      var t := JsTrim(s); t[0] == '+' || t[0] == '-' || t[0] == '.' || IsDigit(t[0])
  {
    var t := JsTrim(s);
    if t == [] then Some(0.0)
    else if t[0] == '+' || t[0] == '-' then
      match UnsignedDecimal(t[1..])
      case None => None
      case Some(x) => Some(if t[0] == '-' then -x else x)
    else UnsignedDecimal(t)
  }

  /** `Number(v)` for a JSON value (None is NaN); an array converts through its text. */
  function ToNumber(v: Js): (r: Option<real>)
    ensures v.JsNum? ==> r == Some(v.x)
    ensures v.JsNull? ==> r == Some(0.0)
    ensures v.JsBool? ==> r == Some(if v.b then 1.0 else 0.0)
    ensures v.Undefined? || v.JsNaN? || v.JsObj? ==> r.None?
    ensures v.JsStr? ==> r == StringToNumber(v.s)
    ensures v.JsArr? ==> r == StringToNumber(JoinTexts(v.items))
  {
    match v
    case JsNum(x, _) => Some(x)
    case JsNull => Some(0.0)
    case JsBool(b) => Some(if b then 1.0 else 0.0)
    case JsStr(s) => StringToNumber(s)
    case JsArr(items) => StringToNumber(JoinTexts(items))
    case _ => None
  }

  /** `Math.round(v)` where `v` is the value of a JSON key: the nearest integer to `Number(v)`; None is NaN. */
  function RoundValue(v: Js): (r: Option<int>)
    ensures r.Some? <==> ToNumber(v).Some?
    ensures r.Some? ==> ToNumber(v).value - 0.5 < r.value as real <= ToNumber(v).value + 0.5
  {
    match ToNumber(v)
    case None => None
    case Some(x) => Some(MathRound(x))
  }

  /** `Math.round` of a number, null or a boolean; undefined, NaN and objects round to NaN. */
  lemma RoundOfPrimitives(v: Js)
    ensures v.JsNum? ==> RoundValue(v) == Some(MathRound(v.x))
    ensures v.JsNull? ==> RoundValue(v) == Some(0)
    ensures v.JsBool? ==> RoundValue(v) == Some(if v.b then 1 else 0)
    ensures v.Undefined? || v.JsNaN? || v.JsObj? ==> RoundValue(v) == None
  {
  }

  /** Blank text, and the empty array whose text is "", round to 0. */
  lemma RoundOfBlank(s: string)
    requires forall i :: 0 <= i < |s| ==> IsJsSpace(s[i])
    ensures RoundValue(JsStr(s)) == Some(0)
    ensures RoundValue(JsArr([])) == Some(0)
  {
    assert JsTrim("") == "";
  }

  /** Digits, with or without a minus sign, have no white space to trim. */
  lemma DigitsUntrimmed(d: string)
    requires d != [] && AllDigits(d)
    ensures JsTrim(d) == d && JsTrim("-" + d) == "-" + d
  {
    assert !IsJsSpace(d[0]) && !IsJsSpace(d[|d| - 1]);
    var m := "-" + d;
    assert m[|m| - 1] == d[|d| - 1];
  }

  /** Digits, with or without a minus sign, read as their decimal value. */
  lemma DigitsToNumber(d: string)
    requires d != [] && AllDigits(d)
    ensures StringToNumber(d) == Some(DecimalValue(d) as real)
    ensures StringToNumber("-" + d) == Some(-(DecimalValue(d) as real))
  {
    DigitsUntrimmed(d);
    assert ("-" + d)[1..] == d;
  }

  /** Digits worth |i|, after a minus sign when i is negative, read as i. */
  lemma SignedDigitsToNumber(i: int, d: string)
    requires d != [] && AllDigits(d) && DecimalValue(d) == if i < 0 then -i else i
    ensures StringToNumber(if i < 0 then "-" + d else d) == Some(i as real)
  {
    DigitsToNumber(d);
  }

  /** The decimal text of an integer reads as that integer. */
  lemma IntegerTextToNumber(i: int)
    ensures StringToNumber(IntToString(i)) == Some(i as real)
  {
    var n: nat := if i < 0 then -i else i;
    var d := NatToString(n);
    DecimalOfNatToString(n);
    SignedDigitsToNumber(i, d);
    assert IntToString(i) == if i < 0 then "-" + d else d;
  }

  /** The decimal text of an integer, alone or as the one item of an array, rounds to that integer. */
  lemma RoundOfIntegerText(i: int)
    ensures RoundValue(JsStr(IntToString(i))) == Some(i)
    ensures RoundValue(JsArr([JsStr(IntToString(i))])) == Some(i)
  {
    IntegerTextToNumber(i);
    MathRoundUnique(i as real, i);
    assert JoinTexts([JsStr(IntToString(i))]) == IntToString(i);
  }

  /** Text that starts, after white space, with a letter is not a number. */
  lemma RoundOfWordText(s: string)
    requires JsTrim(s) != [] && (IsLowerLetter(JsTrim(s)[0]) || IsUpperLetter(JsTrim(s)[0]))
    ensures RoundValue(JsStr(s)) == None
  {
  }

  /** `${v}` in a template string. */
  function Text(v: Js): string {
    match v
    case Undefined => "undefined"
    case JsNull => "null"
    case JsBool(b) => if b then "true" else "false"
    case JsNum(_, t) => t
    case JsNaN => "NaN"
    case JsStr(s) => s
    case JsArr(items) => JoinTexts(items)
    case JsObj(_) => "[object Object]"
  }

  /** `String(array)`: the items' texts joined by commas, null and undefined printed as empty. */
  function JoinTexts(items: seq<Js>): string
    decreases items
  {
    if items == [] then ""
    else
      var first := if items[0].Undefined? || items[0].JsNull? then "" else Text(items[0]);
      if |items| == 1 then first else first + "," + JoinTexts(items[1..])
  }
}
