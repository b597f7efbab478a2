/**
 * Python's string operations on `seq<char>`: `lower`, `upper`, `strip`,
 * `split`, `' '.join`, `replace`, `in`, `startswith`, `zfill`, `str(int)`
 * and `int(str)`.
 *
 * Case mapping covers ASCII and the Latin-1 letters (U+00C0..U+00FE), which
 * is every letter the system's Spanish data and literals use.
 */
module Text {
  import opened Py

  /** Python's `str.isspace` for one character (the separators of `split()` and `strip()`). */
  predicate IsSpace(c: char) {
    c == ' ' || c == '\t' || c == '\n' || c == '\r' || c == '\U{0B}' || c == '\U{0C}'
    || ('\U{1C}' <= c && c <= '\U{1F}') || c == '\U{85}' || c == '\U{A0}' || c == '\U{1680}'
    || ('\U{2000}' <= c && c <= '\U{200A}') || c == '\U{2028}' || c == '\U{2029}'
    || c == '\U{202F}' || c == '\U{205F}' || c == '\U{3000}'
  }

  predicate IsUpperLetter(c: char) {
    ('A' <= c && c <= 'Z') || ('\U{C0}' <= c && c <= '\U{DE}' && c != '\U{D7}')
  }

  predicate IsLowerLetter(c: char) {
    ('a' <= c && c <= 'z') || ('\U{E0}' <= c && c <= '\U{FE}' && c != '\U{F7}')
  }

  function LowerChar(c: char): (r: char)
    ensures !IsUpperLetter(r)
    ensures IsUpperLetter(c) ==> IsLowerLetter(r)
    ensures !IsUpperLetter(c) ==> r == c
  {
    if IsUpperLetter(c) then (c as int + 32) as char else c
  }

  function UpperChar(c: char): (r: char)
    ensures !IsLowerLetter(r)
    ensures IsLowerLetter(c) ==> IsUpperLetter(r)
    ensures !IsLowerLetter(c) ==> r == c
  {
    if IsLowerLetter(c) then (c as int - 32) as char else c
  }

  /** `s.lower()`. */
  function Lower(s: string): (r: string)
    ensures |r| == |s|
    ensures forall i :: 0 <= i < |s| ==> r[i] == LowerChar(s[i])
  {
    seq(|s|, i requires 0 <= i < |s| => LowerChar(s[i]))
  }

  /** `s.upper()`. */
  function Upper(s: string): (r: string)
    ensures |r| == |s|
    ensures forall i :: 0 <= i < |s| ==> r[i] == UpperChar(s[i])
  {
    seq(|s|, i requires 0 <= i < |s| => UpperChar(s[i]))
  }

  lemma {:induction false} LowerAt(s: string, i: nat)
    requires i < |s|
    ensures Lower(s)[i] == LowerChar(s[i])
  {
    if i > 0 { LowerAt(s[1..], i - 1); }
  }

  /** A string with no upper-case letter: what `lower()` returns. */
  predicate IsLowered(s: string) {
    forall i :: 0 <= i < |s| ==> !IsUpperLetter(s[i])
  }

  lemma {:induction false} LowerIsLowered(s: string)
    ensures IsLowered(Lower(s))
  {
    forall i | 0 <= i < |s| ensures !IsUpperLetter(Lower(s)[i]) { LowerAt(s, i); }
  }

  lemma {:induction false} LowerOfLowered(s: string)
    requires IsLowered(s)
    ensures Lower(s) == s
  {
    if s != [] { LowerOfLowered(s[1..]); }
  }

  /** No lower-cased text equals a text that holds a capital letter. */
  lemma LoweredAvoidsCapital(s: string, key: string, i: nat)
    requires i < |key| && IsUpperLetter(key[i])
    ensures Lower(s) != key
  {
    if |Lower(s)| == |key| {
      LowerIsLowered(s);
      assert !IsUpperLetter(Lower(s)[i]);
    }
  }

  /** `lower()` is idempotent. */
  lemma LowerIdempotent(s: string)
    ensures Lower(Lower(s)) == Lower(s)
  {
    LowerIsLowered(s);
    LowerOfLowered(Lower(s));
  }

  /** `lower()` produces a lower-case letter only from that letter or its capital. */
  lemma {:induction false} LowerAvoids(s: string, c: char)
    requires IsLowerLetter(c) && c !in s && UpperChar(c) !in s
    ensures c !in Lower(s)
  {
    if s != [] {
      LowerAvoids(s[1..], c);
      assert s[0] != c && s[0] != UpperChar(c);
      assert Lower(s) == [LowerChar(s[0])] + Lower(s[1..]);
    }
  }

  lemma {:induction false} LowerAppend(a: string, b: string)
    ensures Lower(a + b) == Lower(a) + Lower(b)
  {
    if a != [] {
      assert (a + b)[1..] == a[1..] + b;
      LowerAppend(a[1..], b);
      assert Lower(a + b) == [LowerChar(a[0])] + Lower(a[1..] + b);
    } else {
      assert a + b == b;
    }
  }

  /** A string that contains `c` only where `s` does: `lower()` never produces a new non-letter. */
  lemma LowerKeepsNonLetters(s: string, c: char)
    requires !IsUpperLetter(c) && !IsLowerLetter(c)
    ensures c in Lower(s) <==> c in s
  {
    if c in Lower(s) {
      var i :| 0 <= i < |s| && Lower(s)[i] == c;
      assert s[i] == c;
    }
    if c in s {
      var i :| 0 <= i < |s| && s[i] == c;
      assert Lower(s)[i] == c;
    }
  }

  // ----- substring search -----

  /** `sub` occurs in `s` at position `i`. */
  predicate OccursAt(s: string, sub: string, i: int) {
    0 <= i && i + |sub| <= |s| && s[i..i + |sub|] == sub
  }

  /** `sub in s`. */
  predicate Contains(s: string, sub: string) {
    exists i | 0 <= i <= |s| - |sub| :: OccursAt(s, sub, i)
  }

  predicate StartsWith(s: string, prefix: string) {
    |prefix| <= |s| && s[..|prefix|] == prefix
  }

  predicate EndsWith(s: string, suffix: string) {
    |suffix| <= |s| && s[|s| - |suffix|..] == suffix
  }

  /** A suffix stays a suffix when text is put in front. */
  lemma EndsWithPrefixed(p: string, r: string, suffix: string)
    requires EndsWith(r, suffix)
    ensures EndsWith(p + r, suffix)
  {
    assert (p + r)[|p + r| - |suffix|..] == r[|r| - |suffix|..];
  }

  /** A string is contained only where its first character occurs. */
  lemma ContainsFirstChar(s: string, sub: string)
    requires |sub| > 0 && Contains(s, sub)
    ensures sub[0] in s
  {
    var i :| 0 <= i <= |s| - |sub| && OccursAt(s, sub, i);
    assert sub[0] == s[i..i + |sub|][0] == s[i];
  }

  /** A string lacking the first character of `sub` does not contain `sub`. */
  lemma LacksFirstChar(s: string, sub: string)
    requires |sub| > 0 && sub[0] !in s
    ensures !Contains(s, sub)
  {
    if Contains(s, sub) {
      ContainsFirstChar(s, sub);
    }
  }

  /** A string lacking some character of `sub` does not contain `sub`. */
  lemma LacksSomeChar(s: string, sub: string, k: nat)
    requires k < |sub| && sub[k] !in s
    ensures !Contains(s, sub)
  {
    if Contains(s, sub) {
      ContainsCharAt(s, sub, k);
    }
  }

  /** Each character of a substring is a character of the string. */
  lemma ContainsCharAt(s: string, sub: string, k: nat)
    requires Contains(s, sub) && k < |sub|
    ensures sub[k] in s
  {
    ContainsChars(s, sub);
    assert sub[k] in sub;
  }

  /** The characters of a substring are characters of the string. */
  lemma ContainsChars(s: string, sub: string)
    requires Contains(s, sub)
    ensures forall c :: c in sub ==> c in s
  {
    var i :| 0 <= i <= |s| - |sub| && OccursAt(s, sub, i);
    forall c | c in sub ensures c in s {
      var j :| 0 <= j < |sub| && sub[j] == c;
      assert s[i + j] == c;
    }
  }

  /** A substring of a text without capitals has none either. */
  lemma ContainedLowered(s: string, sub: string)
    requires Contains(s, sub) && IsLowered(s)
    ensures IsLowered(sub)
  {
    var i :| 0 <= i <= |s| - |sub| && OccursAt(s, sub, i);
    forall k | 0 <= k < |sub| ensures !IsUpperLetter(sub[k]) {
      assert sub[k] == s[i + k];
    }
  }

  /** No character of a text without capitals is a capital. */
  lemma LoweredChar(s: string, c: char)
    requires IsLowered(s) && c in s
    ensures !IsUpperLetter(c)
  {
    var m :| 0 <= m < |s| && s[m] == c;
  }

  lemma ContainsPrefix(s: string, sub: string)
    requires StartsWith(s, sub)
    ensures Contains(s, sub)
  {
    assert OccursAt(s, sub, 0);
  }

  lemma ContainsWhole(s: string)
    ensures Contains(s, s)
  {
    assert OccursAt(s, s, 0);
  }

  // ----- strip / split / join -----

  function LStrip(s: string): (r: string)
    ensures |r| <= |s| && r == s[|s| - |r|..]
    ensures r != [] ==> !IsSpace(r[0])
    ensures forall i :: 0 <= i < |s| - |r| ==> IsSpace(s[i])
  {
    if s != [] && IsSpace(s[0]) then
      var r := LStrip(s[1..]);
      assert s[|s| - |r|..] == s[1..][|s| - 1 - |r|..];
      assert forall i :: 1 <= i < |s| - |r| ==> s[i] == s[1..][i - 1];
      r
    else s
  }

  function RStrip(s: string): (r: string)
    ensures |r| <= |s| && r == s[..|r|]
    ensures r != [] ==> !IsSpace(r[|r| - 1])
    ensures forall i :: |r| <= i < |s| ==> IsSpace(s[i])
  {
    if s != [] && IsSpace(s[|s| - 1]) then RStrip(s[..|s| - 1]) else s
  }

  /** `s.strip()`: drops surrounding whitespace and nothing else. */
  function Strip(s: string): (r: string)
    ensures r == [] || (!IsSpace(r[0]) && !IsSpace(r[|r| - 1]))
    ensures Contains(s, r)
  {
    var l := LStrip(s);
    var r := RStrip(l);
    assert s[|s| - |l|..|s| - |l| + |r|] == l[..|r|];
    assert OccursAt(s, r, |s| - |l|);
    r
  }

  lemma {:induction false} StripOfEdgeless(s: string)
    requires s == [] || (!IsSpace(s[0]) && !IsSpace(s[|s| - 1]))
    ensures Strip(s) == s
  {
  }

  /** `strip()` is idempotent. */
  lemma StripIdempotent(s: string)
    ensures Strip(Strip(s)) == Strip(s)
  {
    StripOfEdgeless(Strip(s));
  }

  /** Length of the run of non-space characters at the start of `s`. */
  function WordLen(s: string): (n: nat)
    ensures n <= |s|
    ensures forall i :: 0 <= i < n ==> !IsSpace(s[i])
    ensures n < |s| ==> IsSpace(s[n])
  {
    if s == [] || IsSpace(s[0]) then 0 else 1 + WordLen(s[1..])
  }

  /** A word of `split()`: non-empty and free of whitespace. */
  predicate IsWord(w: string) {
    w != [] && forall i :: 0 <= i < |w| ==> !IsSpace(w[i])
  }

  /** `s.split()`: the maximal runs of non-whitespace characters, in order. */
  function Split(s: string): (ws: seq<string>)
    ensures forall k :: 0 <= k < |ws| ==> IsWord(ws[k])
    decreases |s|
  {
    if s == [] then []
    else if IsSpace(s[0]) then Split(s[1..])
    else
      var n := WordLen(s);
      [s[..n]] + Split(s[n..])
  }

  /** Every character of every word of `split()` comes from the input. */
  lemma {:induction false} SplitChars(s: string, k: nat, i: nat)
    requires k < |Split(s)| && i < |Split(s)[k]|
    ensures Split(s)[k][i] in s
    decreases |s|
  {
    if IsSpace(s[0]) {
      SplitChars(s[1..], k, i);
      assert Split(s)[k][i] in s[1..];
    } else {
      var n := WordLen(s);
      if k == 0 {
        assert Split(s)[0] == s[..n];
        assert s[i] in s;
      } else {
        SplitChars(s[n..], k - 1, i);
        assert Split(s)[k][i] in s[n..];
      }
    }
  }

  /** `split()` finds no word exactly when the text is all whitespace. */
  lemma {:induction false} SplitEmpty(s: string)
    ensures Split(s) == [] <==> forall i :: 0 <= i < |s| ==> IsSpace(s[i])
    decreases |s|
  {
    if s != [] && IsSpace(s[0]) {
      SplitEmpty(s[1..]);
      assert forall i :: 0 <= i < |s[1..]| ==> s[1..][i] == s[i + 1];
    }
  }

  /** `' '.join(ws)`. */
  function JoinSpace(ws: seq<string>): string {
    if ws == [] then "" else if |ws| == 1 then ws[0] else ws[0] + " " + JoinSpace(ws[1..])
  }

  /**
   * Normal spacing: no whitespace but single spaces between non-space
   * characters (no leading, trailing or doubled space).
   */
  predicate NormalSpacing(s: string) {
    (forall i :: 0 <= i < |s| ==> IsSpace(s[i]) ==> s[i] == ' ')
    && (s != [] ==> !IsSpace(s[0]) && !IsSpace(s[|s| - 1]))
    && (forall i :: 0 <= i < |s| - 1 ==> IsSpace(s[i]) ==> !IsSpace(s[i + 1]))
  }

  /** Joining words with single spaces gives normal spacing. */
  lemma {:induction false} JoinWordsSpacing(ws: seq<string>)
    requires forall k :: 0 <= k < |ws| ==> IsWord(ws[k])
    ensures NormalSpacing(JoinSpace(ws))
    ensures |ws| > 0 ==> JoinSpace(ws) != []
  {
    if |ws| > 1 {
      JoinWordsSpacing(ws[1..]);
      var w, rest := ws[0], JoinSpace(ws[1..]);
      var j := w + " " + rest;
      assert j == JoinSpace(ws);
      forall i | 0 <= i < |j| - 1 && IsSpace(j[i]) ensures !IsSpace(j[i + 1]) {
        if i == |w| { assert j[i + 1] == rest[0]; }
        else if i > |w| { assert j[i] == rest[i - |w| - 1] && j[i + 1] == rest[i - |w|]; }
      }
      forall i | 0 <= i < |j| && IsSpace(j[i]) ensures j[i] == ' ' {
        if i > |w| { assert j[i] == rest[i - |w| - 1]; }
      }
      assert j[|j| - 1] == rest[|rest| - 1];
    }
  }

  /** Every character of `' '.join(ws)` is a space or comes from a word. */
  lemma {:induction false} JoinChars(ws: seq<string>, i: nat)
    requires i < |JoinSpace(ws)|
    ensures JoinSpace(ws)[i] == ' ' || exists k, j :: 0 <= k < |ws| && 0 <= j < |ws[k]| && JoinSpace(ws)[i] == ws[k][j]
  {
    if |ws| == 1 {
      assert JoinSpace(ws)[i] == ws[0][i];
    } else if |ws| > 1 {
      var w, rest := ws[0], JoinSpace(ws[1..]);
      assert JoinSpace(ws) == w + " " + rest;
      if i < |w| {
        assert JoinSpace(ws)[i] == ws[0][i];
      } else if i > |w| {
        JoinChars(ws[1..], i - |w| - 1);
        assert JoinSpace(ws)[i] == rest[i - |w| - 1];
        if rest[i - |w| - 1] != ' ' {
          var k, j :| 0 <= k < |ws[1..]| && 0 <= j < |ws[1..][k]| && rest[i - |w| - 1] == ws[1..][k][j];
          assert ws[1..][k] == ws[k + 1];
        }
      }
    }
  }

  // ----- replace -----

  /** `s.replace(pat, rep)`: leftmost, non-overlapping occurrences, in one pass. */
  function ReplaceAll(s: string, pat: string, rep: string): string
    requires pat != []
    decreases |s|
  {
    if |s| < |pat| then s
    else if s[..|pat|] == pat then rep + ReplaceAll(s[|pat|..], pat, rep)
    else [s[0]] + ReplaceAll(s[1..], pat, rep)
  }

  /** A character survives `replace` only if it was in the input or in the replacement. */
  lemma {:induction false} ReplaceAllChars(s: string, pat: string, rep: string, c: char)
    requires pat != []
    requires c in ReplaceAll(s, pat, rep)
    ensures c in s || c in rep
    decreases |s|
  {
    if |s| >= |pat| {
      if s[..|pat|] == pat {
        if c !in rep { ReplaceAllChars(s[|pat|..], pat, rep, c); assert c in s[|pat|..]; }
      } else if c != s[0] && c !in rep {
        ReplaceAllChars(s[1..], pat, rep, c);
        assert c in s[1..];
      }
    }
  }

  /** Replacing a one-character pattern with a string free of it removes every occurrence. */
  lemma {:induction false} ReplaceAllRemovesChar(s: string, c: char, rep: string)
    requires c !in rep
    ensures c !in ReplaceAll(s, [c], rep)
    decreases |s|
  {
    if |s| >= 1 {
      if s[..1] == [c] {
        ReplaceAllRemovesChar(s[1..], c, rep);
      } else {
        ReplaceAllRemovesChar(s[1..], c, rep);
        assert s[0] != c;
      }
    }
  }

  // ----- integers as text -----

  predicate IsDigit(c: char) { '0' <= c && c <= '9' }

  predicate AllDigits(s: string) { forall i :: 0 <= i < |s| ==> IsDigit(s[i]) }

  function DigitChar(d: nat): (c: char)
    requires d < 10
    ensures IsDigit(c)
  {
    ('0' as int + d) as char
  }

  function DigitValue(c: char): (d: nat)
    requires IsDigit(c)
    ensures d < 10 && DigitChar(d) == c
  {
    c as int - '0' as int
  }

  /** `str(n)` for a non-negative integer. */
  function NatToString(n: nat): (s: string)
    ensures s != [] && AllDigits(s)
    ensures s[0] == '0' ==> n == 0 && s == "0"
  {
    if n < 10 then [DigitChar(n)] else NatToString(n / 10) + [DigitChar(n % 10)]
  }

  /** The value of a string of decimal digits. */
  function DecimalValue(s: string): nat
    requires AllDigits(s)
  {
    if s == [] then 0 else 10 * DecimalValue(s[..|s| - 1]) + DigitValue(s[|s| - 1])
  }

  lemma {:induction false} DecimalOfNatToString(n: nat)
    ensures DecimalValue(NatToString(n)) == n
  {
    if n >= 10 {
      DecimalOfNatToString(n / 10);
      var s := NatToString(n);
      assert s[..|s| - 1] == NatToString(n / 10);
    }
  }

  lemma {:induction false} DecimalLeadingZeros(z: nat, s: string)
    requires AllDigits(s)
    ensures AllDigits(Zeros(z) + s) && DecimalValue(Zeros(z) + s) == DecimalValue(s)
    decreases |s|
  {
    if s == [] {
      ZerosValue(z);
      assert Zeros(z) + s == Zeros(z);
    } else {
      var t := Zeros(z) + s;
      assert t[..|t| - 1] == Zeros(z) + s[..|s| - 1];
      DecimalLeadingZeros(z, s[..|s| - 1]);
    }
  }

  function Zeros(z: nat): (r: string)
    ensures |r| == z && AllDigits(r)
    ensures forall i :: 0 <= i < z ==> r[i] == '0'
  {
    if z == 0 then [] else "0" + Zeros(z - 1)
  }

  lemma {:induction false} ZerosValue(z: nat)
    ensures DecimalValue(Zeros(z)) == 0
  {
    if z > 0 {
      assert Zeros(z)[..z - 1] == Zeros(z - 1);
      ZerosValue(z - 1);
    }
  }

  /** A leading '+' or '-'. */
  predicate Signed(s: string) {
    s != [] && (s[0] == '+' || s[0] == '-')
  }

  /**
   * `s.zfill(width)`: zeros on the left up to `width` characters, placed
   * after a leading sign.
   */
  function ZFill(s: string, width: nat): (r: string)
    ensures |r| == if |s| >= width then |s| else width
    ensures |s| >= width ==> r == s
    ensures Signed(s) ==> r[0] == s[0] && EndsWith(r, s[1..])
    ensures !Signed(s) ==> EndsWith(r, s)
  {
    if |s| >= width then s
    else if Signed(s) then [s[0]] + Zeros(width - |s|) + s[1..]
    else Zeros(width - |s|) + s
  }

  /** Zero-padding digits leaves digits. */
  lemma ZFilledDigits(s: string, width: nat)
    requires AllDigits(s)
    ensures AllDigits(ZFill(s, width))
  {
    if |s| < width {
      var z := Zeros(width - |s|);
      var r := z + s;
      forall i | 0 <= i < |r| ensures IsDigit(r[i]) {
        if i >= |z| { assert r[i] == s[i - |z|]; }
      }
    }
  }

  /** `int(s)` in its plain form: optional surrounding whitespace, an optional sign, ASCII digits. */
  function ParseInt(s: string): (r: Option<int>)
    ensures r.Some? ==> Strip(s) != []
  {
    var t := Strip(s);
    if t == [] then None
    else if (t[0] == '-' || t[0] == '+') && |t| > 1 && AllDigits(t[1..]) then
      var v: int := DecimalValue(t[1..]);
      Some(if t[0] == '-' then -v else v)
    else if AllDigits(t) then Some(DecimalValue(t))
    else None
  }

  lemma AllDigitsEdgeless(s: string)
    requires s != [] && AllDigits(s)
    ensures !IsSpace(s[0]) && !IsSpace(s[|s| - 1])
  {
  }

  /** Text made only of digits reads as its decimal value. */
  lemma ParseDigits(t: string)
    requires t != [] && AllDigits(t)
    ensures ParseInt(t) == Some(DecimalValue(t))
  {
    AllDigitsEdgeless(t);
    StripOfEdgeless(t);
  }

  /** The value of two decimal digits. */
  lemma DecimalOfTwo(t: string)
    requires |t| == 2 && AllDigits(t)
    ensures DecimalValue(t) == 10 * DigitValue(t[0]) + DigitValue(t[1])
  {
    var head := t[..1];
    assert head[..0] == [] && head[0] == t[0];
    assert DecimalValue(head) == DigitValue(t[0]);
  }

  /** `int(str(n).zfill(w)) == n`: zero-padded decimal text reads back as the number. */
  lemma ParseZFilled(n: nat, width: nat)
    ensures ParseInt(ZFill(NatToString(n), width)) == Some(n)
  {
    var d := NatToString(n);
    DecimalOfNatToString(n);
    var t := PadDigits(d, width);
    assert !Signed(d) && ZFill(d, width) == t;
    ParseDigits(t);
  }

  /** Digits with zeros on the left up to `width`: still digits, with the same value. */
  function PadDigits(d: string, width: nat): (t: string)
    requires AllDigits(d)
    ensures AllDigits(t) && DecimalValue(t) == DecimalValue(d)
    ensures |d| >= width ==> t == d
    ensures |d| < width ==> t == Zeros(width - |d|) + d
  {
    if |d| >= width then d
    else
      DecimalLeadingZeros(width - |d|, d);
      Zeros(width - |d|) + d
  }

  /** `str(i)` for any integer. */
  function IntToString(i: int): (s: string)
    ensures s != []
  {
    if i < 0 then "-" + NatToString(-i) else NatToString(i)
  }

  /** `int(str(i).zfill(w)) == i`: zero-padding, after the sign, keeps the value. */
  lemma ParseZFilledInt(i: int, width: nat)
    ensures ParseInt(ZFill(IntToString(i), width)) == Some(i)
  {
    if i >= 0 {
      ParseZFilled(i, width);
    } else {
      ParseZFilledNegative(i, width);
    }
  }

  lemma ParseZFilledNegative(i: int, width: nat)
    requires i < 0
    ensures ParseInt(ZFill(IntToString(i), width)) == Some(i)
  {
    var z := ZFill(IntToString(i), width);
    NegativeZFilled(i, width);
    DecimalOfNatToString(-i);
    ParseNegative(z, i);
  }

  /** `str(i).zfill(width)` for a negative `i`: the minus sign, then the digits of `-i` padded to `width - 1`. */
  lemma NegativeZFilled(i: int, width: nat)
    requires i < 0
    ensures var z := ZFill(IntToString(i), width);
      |z| > 1 && z[0] == '-' && z[1..] == PadDigits(NatToString(-i), if width == 0 then 0 else width - 1)
  {
    var d := NatToString(-i);
    var s := IntToString(i);
    assert s == "-" + d && Signed(s) && s[1..] == d;
  }



  /** A minus sign followed by digits reads as the negated value. */
  lemma ParseNegative(t: string, i: int)
    requires |t| > 1 && t[0] == '-' && AllDigits(t[1..]) && DecimalValue(t[1..]) == -i
    ensures ParseInt(t) == Some(i)
  {
    assert !IsSpace(t[0]) && !IsSpace(t[|t| - 1]);
    StripOfEdgeless(t);
  }


  /** Distinct integers have distinct zero-padded forms. */
  lemma ZFilledInjective(m: int, n: int, width: nat)
    requires ZFill(IntToString(m), width) == ZFill(IntToString(n), width)
    ensures m == n
  {
    ParseZFilledInt(m, width);
    ParseZFilledInt(n, width);
  }

  /** `str(cell)` for a pandas cell; NaN prints as "nan". */
  function CellText(c: Cell): string {
    match c
    case NaN => "nan"
    case Str(s) => s
    case Int(i) => IntToString(i)
    case Float(_, repr) => repr
  }
}
