/** Small value types and string helpers shared by the rest of the model:
    optional values, results, decimal rendering and parsing of naturals,
    `split`, whitespace stripping, ASCII lower-casing, `slice(0, n)` and the
    JavaScript `splice(index, 1)` rule. */
module Util {

  datatype Option<T> = None | Some(value: T) {
    function GetOr(default: T): T {
      match this
      case Some(v) => v
      case None => default
    }
  }

  datatype Result<T, E> = Ok(value: T) | Err(error: E)

  predicate IsDigit(c: char) { '0' <= c <= '9' }

  predicate AllDigits(s: string) { forall i :: 0 <= i < |s| ==> IsDigit(s[i]) }

  /** A character that is not a digit does not occur in a run of digits. */
  lemma NoDigitIn(s: string, c: char)
    requires AllDigits(s) && !IsDigit(c)
    ensures c !in s
  {
  }

  function DigitChar(d: nat): (c: char)
    requires d < 10
    ensures IsDigit(c)
  {
    ['0', '1', '2', '3', '4', '5', '6', '7', '8', '9'][d]
  }

  function DigitValue(c: char): (d: nat)
    requires IsDigit(c)
    ensures d < 10
  {
    (c as int - '0' as int) as nat
  }

  lemma DigitRoundTrip(d: nat)
    requires d < 10
    ensures DigitValue(DigitChar(d)) == d
  {
  }

  /** Decimal rendering of a natural number, as `String(n)` or `${n}` do. */
  function NatToString(n: nat): (s: string)
    ensures |s| >= 1 && AllDigits(s)
    decreases n
  {
    if n < 10 then [DigitChar(n)] else NatToString(n / 10) + [DigitChar(n % 10)]
  }

  /** Decimal rendering of an integer: a leading '-' for negative values. */
  function IntToString(n: int): (s: string)
    ensures |s| >= 1
    ensures n >= 0 <==> s[0] != '-'
  {
    if n >= 0 then NatToString(n) else "-" + NatToString(-n)
  }

  /** Two-digit rendering used for clock times: `n < 10 ? "0" + n : n`. */
  function Pad2(n: nat): (s: string)
    ensures n < 100 ==> |s| == 2
    ensures AllDigits(s)
  {
    if n < 10 then "0" + NatToString(n)
    else
      assert n < 100 ==> |NatToString(n / 10)| == 1;
      NatToString(n)
  }

  /** The value of a (possibly empty) string of decimal digits. */
  function DigitsValue(s: string): (n: nat)
    requires AllDigits(s)
  {
    if s == [] then 0 else 10 * DigitsValue(s[..|s| - 1]) + DigitValue(s[|s| - 1])
  }

  lemma {:induction false} NatToStringRoundTrip(n: nat)
    ensures DigitsValue(NatToString(n)) == n
    decreases n
  {
    var s := NatToString(n);
    if n < 10 {
      DigitRoundTrip(n);
    } else {
      NatToStringRoundTrip(n / 10);
      DigitRoundTrip(n % 10);
      assert s[..|s| - 1] == NatToString(n / 10);
    }
  }

  /** The two digits of `Pad2` read back as the number. */
  lemma Pad2RoundTrip(n: nat)
    ensures DigitsValue(Pad2(n)) == n
  {
    NatToStringRoundTrip(n);
    if n < 10 {
      var s := Pad2(n);
      assert s[..|s| - 1] == "0";
      assert DigitsValue("0") == 0 by { assert "0"[..0] == ""; }
    }
  }

  /** Two digit characters read as a number below 100 and rendered again by
      `Pad2` give the same two characters. */
  lemma Pad2OfDigits(a: char, b: char)
    requires IsDigit(a) && IsDigit(b)
    ensures Pad2(10 * DigitValue(a) + DigitValue(b)) == [a, b]
  {
    var n := 10 * DigitValue(a) + DigitValue(b);
    assert DigitChar(DigitValue(a)) == a && DigitChar(DigitValue(b)) == b;
    if n >= 10 {
      assert n / 10 == DigitValue(a) && n % 10 == DigitValue(b);
      assert NatToString(n) == NatToString(n / 10) + [DigitChar(n % 10)];
    }
  }

  /** The two characters of `Pad2(n)` read back as `n`. */
  lemma DigitsOfPad2(n: nat)
    requires n < 100
    ensures 10 * DigitValue(Pad2(n)[0]) + DigitValue(Pad2(n)[1]) == n
  {
    var s := Pad2(n);
    Pad2RoundTrip(n);
    assert s[..1][..0] == [];
    assert DigitsValue(s) == 10 * DigitsValue(s[..1]) + DigitValue(s[1]);
  }

  /** Distinct naturals render to distinct strings. */
  lemma NatToStringInjective(m: nat, n: nat)
    requires NatToString(m) == NatToString(n)
    ensures m == n
  {
    NatToStringRoundTrip(m);
    NatToStringRoundTrip(n);
  }

  /** `s.slice(0, n)` in JavaScript, `s[:n]` in Python. */
  function Prefix<T>(s: seq<T>, n: nat): (r: seq<T>)
    ensures |r| == if n <= |s| then n else |s|
    ensures forall i :: 0 <= i < |r| ==> r[i] == s[i]
  {
    if n <= |s| then s[..n] else s
  }

  /** The index of the first occurrence of `c` in `s`. */
  function IndexOf<T(==)>(s: seq<T>, c: T): (i: nat)
    requires c in s
    ensures i < |s| && s[i] == c && c !in s[..i]
  {
    if s[0] == c then 0 else
      assert c in s[1..] by { var k :| 0 <= k < |s| && s[k] == c; assert s[1..][k - 1] == c; }
      var j := IndexOf(s[1..], c);
      assert s[..j + 1] == [s[0]] + s[1..][..j];
      j + 1
  }

  /** `s.split(sep)` with a one-character separator (the same in JavaScript
      and Python): the maximal separator-free pieces, left to right. */
  function Split(s: string, sep: char): (parts: seq<string>)
    ensures |parts| >= 1
    ensures forall k :: 0 <= k < |parts| ==> sep !in parts[k]
    decreases |s|
  {
    if sep !in s then [s]
    else
      var i := IndexOf(s, sep);
      [s[..i]] + Split(s[i + 1..], sep)
  }

  /** Joining the pieces of `Split` with the separator gives the string back. */
  lemma {:induction false} SplitJoin(s: string, sep: char)
    ensures Join(Split(s, sep), [sep]) == s
    decreases |s|
  {
    if sep in s {
      var i := IndexOf(s, sep);
      var rest := Split(s[i + 1..], sep);
      var ps := [s[..i]] + rest;
      assert Split(s, sep) == ps;
      assert ps[0] == s[..i] && ps[1..] == rest;
      assert Join(ps, [sep]) == s[..i] + [sep] + Join(rest, [sep]);
      SplitJoin(s[i + 1..], sep);
      assert s == s[..i] + [sep] + s[i + 1..];
    } else {
      assert Split(s, sep) == [s];
    }
  }

  /** Splitting a string with no separator in it gives the string itself. */
  lemma SplitNoSeparator(s: string, sep: char)
    requires sep !in s
    ensures Split(s, sep) == [s]
  {
  }

  /** `a + [sep] + b` with `a` free of the separator splits into `a` and the pieces of `b`. */
  lemma SplitAt(a: string, sep: char, b: string)
    requires sep !in a
    ensures Split(a + [sep] + b, sep) == [a] + Split(b, sep)
  {
    var s := a + [sep] + b;
    assert s[|a|] == sep;
    assert sep in s;
    var i := IndexOf(s, sep);
    assert i == |a|;
    assert s[..i] == a;
    assert s[i + 1..] == b;
  }

  /** Splitting a joined list of separator-free pieces gives the pieces back. */
  lemma {:induction false} SplitJoined(parts: seq<string>, sep: char)
    requires |parts| >= 1
    requires forall k :: 0 <= k < |parts| ==> sep !in parts[k]
    ensures Split(Join(parts, [sep]), sep) == parts
    decreases |parts|
  {
    if |parts| == 1 {
      SplitNoSeparator(parts[0], sep);
    } else {
      var tail := Join(parts[1..], [sep]);
      assert Join(parts, [sep]) == parts[0] + [sep] + tail;
      SplitJoined(parts[1..], sep);
      SplitAt(parts[0], sep, tail);
      assert [parts[0]] + parts[1..] == parts;
    }
  }

  /** The last piece of `a + [sep] + b`, for a separator-free `b`, is `b`. */
  lemma {:induction false} SplitLast(a: string, sep: char, b: string)
    requires sep !in b
    ensures Split(a + [sep] + b, sep)[|Split(a + [sep] + b, sep)| - 1] == b
    decreases |a|
  {
    var s := a + [sep] + b;
    if sep !in a {
      SplitAt(a, sep, b);
      SplitNoSeparator(b, sep);
    } else {
      var i := IndexOf(a, sep);
      assert s[i] == sep && sep !in s[..i];
      assert s[..i] == a[..i];
      assert s[i + 1..] == a[i + 1..] + [sep] + b;
      SplitLast(a[i + 1..], sep, b);
    }
  }

  /** `parts.join(sep)` */
  function Join(parts: seq<string>, sep: string): (s: string)
    ensures parts == [] ==> s == ""
  {
    if parts == [] then ""
    else if |parts| == 1 then parts[0]
    else parts[0] + sep + Join(parts[1..], sep)
  }

  /** Characters Python's `str.strip()` removes: those `str.isspace()`
      holds for, the ASCII controls U+0009 to U+000D and U+001C to U+001F,
      the space, U+0085, and the Unicode space separators and line and
      paragraph separators. */
  predicate PyWhitespace(c: char) {
    || '\t' <= c <= '\r' || '\U{1C}' <= c <= ' ' || c == '\U{85}' || c == '\U{A0}'
    || c == '\U{1680}' || '\U{2000}' <= c <= '\U{200A}' || c == '\U{2028}' || c == '\U{2029}'
    || c == '\U{202F}' || c == '\U{205F}' || c == '\U{3000}'
  }

  /** Characters JavaScript's `trim()`, `Number` and `parseInt` skip: the
      ECMAScript white space (tab, vertical tab, form feed, space, no-break
      space, the byte order mark and the Unicode space separators) and line
      terminators (line feed, carriage return, U+2028, U+2029). */
  predicate JsWhitespace(c: char) {
    || '\t' <= c <= '\r' || c == ' ' || c == '\U{A0}' || c == '\U{FEFF}'
    || c == '\U{1680}' || '\U{2000}' <= c <= '\U{200A}' || c == '\U{2028}' || c == '\U{2029}'
    || c == '\U{202F}' || c == '\U{205F}' || c == '\U{3000}'
  }

  /** The length of a JavaScript string, in UTF-16 code units: a character
      beyond U+FFFF takes two. zod's `min` and `max` on strings count these. */
  function Utf16Length(s: string): (n: nat)
    ensures |s| <= n <= 2 * |s|
  {
    if s == [] then 0 else (if s[0] as int >= 0x1_0000 then 2 else 1) + Utf16Length(s[1..])
  }

  /** A string within the Basic Multilingual Plane has one code unit per
      character. */
  lemma {:induction false} Utf16LengthBmp(s: string)
    requires forall i :: 0 <= i < |s| ==> s[i] as int < 0x1_0000
    ensures Utf16Length(s) == |s|
  {
    if s != [] {
      assert forall i :: 0 <= i < |s[1..]| ==> s[1..][i] == s[i + 1];
      Utf16LengthBmp(s[1..]);
    }
  }

  /** Drops leading characters satisfying `ws`. */
  function TrimStart(s: string, ws: char -> bool): (r: string)
    ensures |r| <= |s| && r == s[|s| - |r|..]
    ensures r == [] || !ws(r[0])
    ensures forall i :: 0 <= i < |s| - |r| ==> ws(s[i])
  {
    if s != [] && ws(s[0]) then TrimStart(s[1..], ws) else s
  }

  /** Drops trailing characters satisfying `ws`. */
  function TrimEnd(s: string, ws: char -> bool): (r: string)
    ensures |r| <= |s| && r == s[..|r|]
    ensures r == [] || !ws(r[|r| - 1])
    ensures forall i :: |r| <= i < |s| ==> ws(s[i])
  {
    if s != [] && ws(s[|s| - 1]) then TrimEnd(s[..|s| - 1], ws) else s
  }

  /** `strip()` / `trim()`: both ends. */
  function Strip(s: string, ws: char -> bool): (r: string)
    ensures r == [] || (!ws(r[0]) && !ws(r[|r| - 1]))
  {
    TrimEnd(TrimStart(s, ws), ws)
  }

  /** A string with no whitespace at either end is its own strip. */
  lemma StripUnchanged(s: string, ws: char -> bool)
    requires s == [] || (!ws(s[0]) && !ws(s[|s| - 1]))
    ensures Strip(s, ws) == s
  {
  }

  /** One whitespace character added at each end is stripped again. */
  lemma StripPadded(s: string, c: char, ws: char -> bool)
    requires ws(c) && Strip(s, ws) == s && s != []
    ensures Strip([c] + s + [c], ws) == s
  {
    var t := [c] + s + [c];
    assert !ws(s[0]) && !ws(s[|s| - 1]);
    assert t[1..] == s + [c];
    assert TrimStart(t, ws) == TrimStart(s + [c], ws);
    assert TrimStart(s + [c], ws) == s + [c];
    assert (s + [c])[..|s|] == s;
    assert TrimEnd(s + [c], ws) == TrimEnd(s, ws);
  }

  /** Python's `str.lower()` restricted to ASCII letters. */
  function LowerChar(c: char): char {
    if 'A' <= c <= 'Z' then (c as int + 32) as char else c
  }

  /** Lower-casing never turns a character into whitespace or leaves an
      upper-case ASCII letter. */
  lemma LowerCharWhitespace(c: char)
    ensures PyWhitespace(LowerChar(c)) == PyWhitespace(c)
    ensures !('A' <= LowerChar(c) <= 'Z')
  {
  }

  function Lower(s: string): (r: string)
    ensures |r| == |s| && forall i :: 0 <= i < |s| ==> r[i] == LowerChar(s[i])
  {
    if s == [] then [] else [LowerChar(s[0])] + Lower(s[1..])
  }

  /** A string of lower-case ASCII letters. */
  predicate LowerWord(s: string) { forall i :: 0 <= i < |s| ==> 'a' <= s[i] <= 'z' }

  /** Stripping leaves a lower-case word as it is. */
  lemma LowerWordStripped(s: string)
    requires LowerWord(s)
    ensures Strip(s, PyWhitespace) == s
  {
    if s != [] {
      assert !PyWhitespace(s[0]) && !PyWhitespace(s[|s| - 1]);
    }
    StripUnchanged(s, PyWhitespace);
  }

  /** Lower-casing leaves a lower-case word as it is. */
  lemma LowerWordLowered(s: string)
    requires LowerWord(s)
    ensures Lower(s) == s
  {
    var l := Lower(s);
    forall i | 0 <= i < |s| ensures l[i] == s[i] {
      assert l[i] == LowerChar(s[i]);
    }
  }

  /** `Number(s)` for the texts this model reads: whitespace at either end
      is ignored, the empty text is 0, and an optionally signed run of
      decimal digits is its value. Every other text (a fraction, an
      exponent, a hexadecimal literal, or one that gives NaN) is `None`.
      The whitespace is peeled one character at a time. */
  function JsNumber(s: string): (r: Option<int>)
    decreases |s|
  {
    if s != [] && JsWhitespace(s[0]) then JsNumber(s[1..])
    else if s != [] && JsWhitespace(s[|s| - 1]) then JsNumber(s[..|s| - 1])
    else SignedNumber(s)
  }

  /** `Number` of a text with no whitespace at its ends. */
  function SignedNumber(t: string): (r: Option<int>)
    ensures t == "" ==> r == Some(0)
    ensures t != "" && AllDigits(t) ==> r == Some(DigitsValue(t))
  {
    if t == "" then Some(0)
    else if AllDigits(t) then Some(DigitsValue(t))
    else if |t| >= 2 && (t[0] == '-' || t[0] == '+') && AllDigits(t[1..]) then
      var v: int := DigitsValue(t[1..]);
      Some(if t[0] == '-' then -v else v)
    else None
  }

  /** Peeling whitespace is stripping it: `Number` reads the trimmed text. */
  lemma {:induction false} JsNumberStripped(s: string)
    ensures JsNumber(s) == SignedNumber(Strip(s, JsWhitespace))
    decreases |s|
  {
    if s != [] && JsWhitespace(s[0]) {
      JsNumberStripped(s[1..]);
      assert Strip(s, JsWhitespace) == Strip(s[1..], JsWhitespace);
    } else if s != [] && JsWhitespace(s[|s| - 1]) {
      JsNumberStripped(s[..|s| - 1]);
      assert Strip(s, JsWhitespace) == Strip(s[..|s| - 1], JsWhitespace);
    } else {
      StripUnchanged(s, JsWhitespace);
    }
  }

  lemma JsNumberDigits(s: string)
    requires s != "" && AllDigits(s)
    ensures JsNumber(s) == Some(DigitsValue(s))
  {
    assert IsDigit(s[0]) && IsDigit(s[|s| - 1]);
  }

  /** The longest prefix of `s` made of decimal digits. */
  function DigitRun(s: string): (r: string)
    ensures AllDigits(r) && |r| <= |s| && r == s[..|r|]
    ensures |r| == |s| || !IsDigit(s[|r|])
  {
    if s != [] && IsDigit(s[0]) then [s[0]] + DigitRun(s[1..]) else []
  }

  lemma {:induction false} DigitRunOf(d: string, rest: string)
    requires AllDigits(d) && (rest == [] || !IsDigit(rest[0]))
    ensures DigitRun(d + rest) == d
    decreases |d|
  {
    if d == [] {
      assert d + rest == rest;
    } else {
      assert (d + rest)[0] == d[0] && (d + rest)[1..] == d[1..] + rest;
      DigitRunOf(d[1..], rest);
      assert [d[0]] + d[1..] == d;
    }
  }

  /** `parseInt(s)` in base 10: leading whitespace skipped, an optional
      sign, then the longest run of digits; `None` (NaN) when that run is
      empty. */
  function ParseInt(s: string): (r: Option<int>)
  {
    var t := TrimStart(s, JsWhitespace);
    var u := if |t| > 0 && (t[0] == '-' || t[0] == '+') then t[1..] else t;
    var d := DigitRun(u);
    if d == [] then None
    else
      var v: int := DigitsValue(d);
      Some(if |t| > 0 && t[0] == '-' then -v else v)
  }

  /** Digits followed by anything that is not a digit parse as those digits. */
  lemma ParseIntPrefix(d: string, rest: string)
    requires d != [] && AllDigits(d) && (rest == [] || !IsDigit(rest[0]))
    ensures ParseInt(d + rest) == Some(DigitsValue(d))
  {
    var s := d + rest;
    assert s[0] == d[0] && IsDigit(d[0]);
    assert !JsWhitespace(s[0]) && s[0] != '-' && s[0] != '+';
    assert TrimStart(s, JsWhitespace) == s;
    DigitRunOf(d, rest);
    assert DigitRun(s) == d;
  }

  /** `s.filter(p)`: the elements satisfying `p`, in their order. */
  function Filter<T>(s: seq<T>, p: T -> bool): (r: seq<T>)
    ensures |r| <= |s|
    ensures forall i :: 0 <= i < |r| ==> r[i] in s && p(r[i])
  {
    if s == [] then [] else (if p(s[0]) then [s[0]] else []) + Filter(s[1..], p)
  }

  /** Nothing satisfying `p` is dropped. */
  lemma {:induction false} FilterKeeps<T>(s: seq<T>, p: T -> bool, x: T)
    requires x in s && p(x)
    ensures x in Filter(s, p)
    decreases |s|
  {
    if s[0] != x {
      FilterKeeps(s[1..], p, x);
    }
  }

  lemma {:induction false} FilterAppend<T>(a: seq<T>, b: seq<T>, p: T -> bool)
    ensures Filter(a + b, p) == Filter(a, p) + Filter(b, p)
    decreases |a|
  {
    if a == [] {
      assert a + b == b;
    } else {
      assert (a + b)[0] == a[0] && (a + b)[1..] == a[1..] + b;
      FilterAppend(a[1..], b, p);
    }
  }

  /** JavaScript's `arr.splice(index, 1)` on a copy: the start position it
      resolves to, clamping `index` into `0..|s|` and counting a negative
      `index` from the end. */
  function SpliceStart(len: nat, index: int): (k: nat)
    ensures k <= len
  {
    if index < 0 then (if len + index < 0 then 0 else len + index)
    else if index > len then len else index
  }

  /** The array left behind by `splice(index, 1)`. */
  function SpliceOne<T>(s: seq<T>, index: int): (r: seq<T>)
    ensures |r| == if SpliceStart(|s|, index) < |s| then |s| - 1 else |s|
  {
    var k := SpliceStart(|s|, index);
    if k < |s| then s[..k] + s[k + 1..] else s
  }

  /** The elements `splice(index, 1)` returns (at most one). */
  function SpliceRemoved<T>(s: seq<T>, index: int): (r: seq<T>)
    ensures |r| <= 1
    ensures |r| == 1 <==> SpliceStart(|s|, index) < |s|
    ensures |r| == 1 ==> r[0] == s[SpliceStart(|s|, index)]
  {
    var k := SpliceStart(|s|, index);
    if k < |s| then [s[k]] else []
  }

  /** `splice(-1, 1)` removes the last element of a non-empty array. */
  lemma SpliceMinusOne<T>(s: seq<T>)
    requires |s| > 0
    ensures SpliceOne(s, -1) == s[..|s| - 1]
    ensures SpliceRemoved(s, -1) == [s[|s| - 1]]
  {
  }

  /** Any index removes nothing from an empty array. */
  lemma SpliceEmpty<T>(index: int)
    ensures SpliceOne<T>([], index) == [] && SpliceRemoved<T>([], index) == []
  {
  }
}
