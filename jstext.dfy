/** The JavaScript string primitives the core relies on: `trim`, `toLowerCase`,
    `toUpperCase`, `split`, number-to-string conversion, `JSON.stringify` of a string,
    `Number.parseInt(s, 10)` and `Number(s)`. Strings are `seq<char>` (Unicode scalar values). */
module JsText {
  import opened Wrappers

  // ---------------------------------------------------------------- whitespace and trim

  /** ECMAScript WhiteSpace and LineTerminator code points (what `trim` strips). */
  predicate IsJsWhitespace(c: char) {
    c == '\t' || c == '\n' || c == '\U{000B}' || c == '\U{000C}' || c == '\r' || c == ' '
    || c == '\U{00A0}' || c == '\U{1680}' || ('\U{2000}' <= c <= '\U{200A}')
    || c == '\U{2028}' || c == '\U{2029}' || c == '\U{202F}' || c == '\U{205F}'
    || c == '\U{3000}' || c == '\U{FEFF}'
  }

  function TrimStart(s: string): (r: string)
    ensures |r| <= |s| && r == s[|s| - |r|..]
    ensures r == [] || !IsJsWhitespace(r[0])
    ensures forall i :: 0 <= i < |s| - |r| ==> IsJsWhitespace(s[i])
  {
    if s != [] && IsJsWhitespace(s[0]) then TrimStart(s[1..]) else s
  }

  function TrimEnd(s: string): (r: string)
    ensures |r| <= |s| && r == s[..|r|]
    ensures r == [] || !IsJsWhitespace(r[|r| - 1])
    ensures forall i :: |r| <= i < |s| ==> IsJsWhitespace(s[i])
  {
    if s != [] && IsJsWhitespace(s[|s| - 1]) then TrimEnd(s[..|s| - 1]) else s
  }

  /** `String.prototype.trim`: the maximal infix with no whitespace at either end. */
  function Trim(s: string): (r: string)
    ensures |r| <= |s|
    ensures r == [] || (!IsJsWhitespace(r[0]) && !IsJsWhitespace(r[|r| - 1]))
    ensures (s == [] || (!IsJsWhitespace(s[0]) && !IsJsWhitespace(s[|s| - 1]))) ==> r == s
  {
    TrimEnd(TrimStart(s))
  }

  /** Trimming twice is trimming once. */
  lemma TrimIdempotent(s: string)
    ensures Trim(Trim(s)) == Trim(s)
  {
    var t := Trim(s);
    assert t == [] || (!IsJsWhitespace(t[0]) && !IsJsWhitespace(t[|t| - 1]));
  }

  /** Every character removed by `trim` is whitespace; `trim` is all-whitespace-to-empty. */
  lemma {:induction false} AllWhitespaceTrimsToEmpty(s: string)
    requires forall i :: 0 <= i < |s| ==> IsJsWhitespace(s[i])
    ensures TrimStart(s) == [] && Trim(s) == []
  {
    if s != [] {
      AllWhitespaceTrimsToEmpty(s[1..]);
    }
  }

  // ---------------------------------------------------------------- case mapping

  /** `toLowerCase` of one code point, exact for ASCII and for the two non-ASCII code points
      whose lower-case mapping contains an ASCII letter (U+0130 and the Kelvin sign U+212A);
      every other code point is returned unchanged (see README, Left out). */
  function LowerChar(c: char): (r: string)
    ensures |r| >= 1
  {
    if 'A' <= c <= 'Z' then [(c as int + 32) as char]
    else if c == '\U{0130}' then ['i', '\U{0307}']
    else if c == '\U{212A}' then ['k']
    else [c]
  }

  function LowerCase(s: string): (r: string)
    ensures |r| >= |s|
  {
    if s == [] then [] else LowerChar(s[0]) + LowerCase(s[1..])
  }

  /** `toUpperCase`, ASCII letters only. */
  function UpperCase(s: string): (r: string)
    ensures |r| == |s|
    ensures forall i :: 0 <= i < |s| ==> r[i] == UpperChar(s[i])
  {
    if s == [] then [] else [UpperChar(s[0])] + UpperCase(s[1..])
  }

  function UpperChar(c: char): char {
    if 'a' <= c <= 'z' then (c as int - 32) as char else c
  }

  /** Case-insensitive equality as a non-Unicode `/i` regular expression compares (ASCII only). */
  predicate SameIgnoringAsciiCase(a: string, b: string) {
    UpperCase(a) == UpperCase(b)
  }

  /** `toLowerCase` leaves a string of lower-case letters, digits and other
      non-upper-case ASCII alone. */
  lemma {:induction false} LowerCaseOfLower(s: string)
    requires forall i :: 0 <= i < |s| ==> !('A' <= s[i] <= 'Z') && s[i] != '\U{0130}' && s[i] != '\U{212A}'
    ensures LowerCase(s) == s
  {
    if s != [] {
      LowerCaseOfLower(s[1..]);
    }
  }

  /** `toLowerCase` works code point by code point, so it distributes over concatenation. */
  lemma {:induction false} LowerCaseConcat(a: string, b: string)
    ensures LowerCase(a + b) == LowerCase(a) + LowerCase(b)
  {
    if a == [] {
      assert a + b == b;
    } else {
      assert (a + b)[0] == a[0] && (a + b)[1..] == a[1..] + b;
      LowerCaseConcat(a[1..], b);
    }
  }

  // ---------------------------------------------------------------- affixes

  predicate StartsWith(s: string, prefix: string) {
    |prefix| <= |s| && s[..|prefix|] == prefix
  }

  predicate EndsWith(s: string, suffix: string) {
    |suffix| <= |s| && s[|s| - |suffix|..] == suffix
  }

  /** `t` occurs in `s` as a contiguous substring. */
  ghost predicate Contains(s: string, t: string) {
    exists k :: OccursAt(s, t, k)
  }

  predicate OccursAt(s: string, t: string, k: int) {
    0 <= k <= |s| - |t| && s[k..k + |t|] == t
  }

  // ---------------------------------------------------------------- decimal digits

  predicate IsDigit(c: char) { '0' <= c <= '9' }

  predicate AllDigits(s: string) { forall i :: 0 <= i < |s| ==> IsDigit(s[i]) }

  function DigitChar(d: nat): (c: char)
    requires d < 10
    ensures IsDigit(c)
  {
    ('0' as int + d) as char
  }

  function DigitValue(c: char): (d: nat)
    requires IsDigit(c)
    ensures d < 10 && DigitChar(d) == c
  {
    c as int - '0' as int
  }

  /** The value of a string of decimal digits, most significant first. */
  function DigitsValue(ds: string): nat
    requires AllDigits(ds)
  {
    if ds == [] then 0 else DigitsValue(ds[..|ds| - 1]) * 10 + DigitValue(ds[|ds| - 1])
  }

  /** Decimal rendering of a natural number, as JavaScript prints an integral number. */
  function NatToString(n: nat): (r: string)
    ensures |r| >= 1 && AllDigits(r)
    ensures r[0] != '0' || n == 0
  {
    if n < 10 then [DigitChar(n)] else NatToString(n / 10) + [DigitChar(n % 10)]
  }

  /** `String(i)` for an integral number. */
  function IntToString(i: int): (r: string)
    ensures |r| >= 1
    ensures i >= 0 ==> r == NatToString(i)
    ensures i < 0 ==> r == "-" + NatToString(-i)
  {
    if i < 0 then "-" + NatToString(-i) else NatToString(i)
  }

  /** Reading back what `NatToString` wrote gives the number again. */
  lemma {:induction false} DigitsValueOfNatToString(n: nat)
    ensures DigitsValue(NatToString(n)) == n
  {
    var r := NatToString(n);
    if n >= 10 {
      DigitsValueOfNatToString(n / 10);
      assert r[..|r| - 1] == NatToString(n / 10);
    }
  }

  /** The longest prefix of decimal digits. */
  function LeadingDigits(s: string): (r: string)
    ensures AllDigits(r) && StartsWith(s, r)
    ensures |r| == |s| || !IsDigit(s[|r|])
  {
    if s != [] && IsDigit(s[0]) then [s[0]] + LeadingDigits(s[1..]) else []
  }

  lemma {:induction false} LeadingDigitsOfDigits(s: string)
    requires AllDigits(s)
    ensures LeadingDigits(s) == s
  {
    if s != [] {
      LeadingDigitsOfDigits(s[1..]);
    }
  }

  /** `Number.parseInt(s, 10)`: skip leading whitespace, take an optional sign and the longest
      run of digits; `None` is NaN (no digit). The digits are read as an exact integer, where
      JavaScript rounds past 2^53 to the nearest double. */
  function ParseIntPrefix(s: string): (r: Option<int>)
    ensures r.Some? <==> LeadingDigits(Unsigned(TrimStart(s))) != []
  {
    var t := TrimStart(s);
    var ds := LeadingDigits(Unsigned(t));
    if ds == [] then None
    else
      var v: int := DigitsValue(ds);
      Some(if t != [] && t[0] == '-' then -v else v)
  }

  function Unsigned(t: string): string {
    if t != [] && (t[0] == '-' || t[0] == '+') then t[1..] else t
  }

  /** The run of digits stops at the first character that is not a digit. */
  lemma {:induction false} LeadingDigitsStopAtNonDigit(ds: string, rest: string)
    requires AllDigits(ds) && (rest == [] || !IsDigit(rest[0]))
    ensures LeadingDigits(ds + rest) == ds
  {
    if ds == [] {
      assert ds + rest == rest;
    } else {
      assert (ds + rest)[1..] == ds[1..] + rest;
      LeadingDigitsStopAtNonDigit(ds[1..], rest);
    }
  }

  /** `parseInt` of digits followed by anything that does not start with a digit. */
  lemma ParseIntOfDigitsThen(ds: string, rest: string)
    requires ds != [] && AllDigits(ds) && (rest == [] || !IsDigit(rest[0]))
    ensures ParseIntPrefix(ds + rest) == Some(DigitsValue(ds) as int)
  {
    var s := ds + rest;
    assert s[0] == ds[0];
    assert !IsJsWhitespace(s[0]);
    assert TrimStart(s) == s;
    assert Unsigned(s) == s;
    LeadingDigitsStopAtNonDigit(ds, rest);
    assert LeadingDigits(Unsigned(TrimStart(s))) == ds;
  }

  /** `parseInt` of digits, with or without a minus in front. */
  lemma ParseIntOfDigits(ds: string)
    requires ds != [] && AllDigits(ds)
    ensures ParseIntPrefix(ds) == Some(DigitsValue(ds) as int)
    ensures ParseIntPrefix("-" + ds) == Some(-(DigitsValue(ds) as int))
  {
    LeadingDigitsOfDigits(ds);
    assert !IsJsWhitespace(ds[0]);
    assert TrimStart(ds) == ds;
    assert Unsigned(ds) == ds;
    var s := "-" + ds;
    assert !IsJsWhitespace(s[0]);
    assert TrimStart(s) == s;
    assert Unsigned(s) == ds;
  }

  /** `parseInt` reads back every integer `String` prints. */
  lemma ParseIntOfIntToString(i: int)
    ensures ParseIntPrefix(IntToString(i)) == Some(i)
  {
    var n: nat := if i < 0 then -i else i;
    var ds := NatToString(n);
    DigitsValueOfNatToString(n);
    ParseIntOfDigits(ds);
    assert IntToString(i) == if i < 0 then "-" + ds else ds;
  }

  // ---------------------------------------------------------------- Number(string)

  /** The result of JavaScript's `Number(...)`: a finite value, or one of NaN/±Infinity
      (which no integer check accepts). */
  datatype Numeric = Finite(value: real) | NonFinite {
    predicate IsInteger() { Finite? && value.Floor as real == value }
  }

  function Pow10(k: nat): (r: nat)
    ensures r >= 1
  {
    if k == 0 then 1 else 10 * Pow10(k - 1)
  }

  /** `Number(s)` for a string: trimmed empty is 0; otherwise an optionally signed decimal
      literal with an optional fraction, read as the exact rational rather than the nearest
      double. Exponents and 0x/0o/0b prefixes are outside this model and read as NonFinite. */
  function StringToNumber(s: string): Numeric {
    var t := Trim(s);
    if t == [] then Finite(0.0)
    else
      match UnsignedDecimal(Unsigned(t))
      case None => NonFinite
      case Some(magnitude) => Finite(if t[0] == '-' then -magnitude else magnitude)
  }

  /** `digits`, `digits.digits`, `digits.` or `.digits`. */
  function UnsignedDecimal(body: string): Option<real> {
    var whole := LeadingDigits(body);
    var rest := body[|whole|..];
    if rest == [] then
      if whole == [] then None else Some(DigitsValue(whole) as real)
    else if rest[0] != '.' then None
    else
      var frac := LeadingDigits(rest[1..]);
      if |frac| != |rest| - 1 || (whole == [] && frac == []) then None
      else Some(DigitsValue(whole) as real + DigitsValue(frac) as real / Pow10(|frac|) as real)
  }

  /** A plain run of digits is read as the integer it spells. */
  lemma StringToNumberOfDigits(ds: string)
    requires ds != [] && AllDigits(ds)
    ensures StringToNumber(ds) == Finite(DigitsValue(ds) as real)
  {
    assert !IsJsWhitespace(ds[0]) && !IsJsWhitespace(ds[|ds| - 1]);
    assert Trim(ds) == ds;
    assert Unsigned(ds) == ds;
    LeadingDigitsOfDigits(ds);
    assert UnsignedDecimal(ds) == Some(DigitsValue(ds) as real);
  }

  // ---------------------------------------------------------------- split

  /** `s.split(c)` for a one-character separator. */
  function SplitOn(s: string, c: char): (r: seq<string>)
    ensures |r| >= 1
    ensures forall i :: 0 <= i < |r| ==> c !in r[i]
  {
    if s == [] then [""]
    else if s[0] == c then [""] + SplitOn(s[1..], c)
    else
      var tail := SplitOn(s[1..], c);
      [[s[0]] + tail[0]] + tail[1..]
  }

  /** A piece free of the separator, followed by the separator, splits off as one element. */
  lemma {:induction false} SplitOnPiece(piece: string, c: char, rest: string)
    requires c !in piece
    ensures SplitOn(piece + [c] + rest, c) == [piece] + SplitOn(rest, c)
  {
    if piece == [] {
      assert piece + [c] + rest == [c] + rest;
      assert ([c] + rest)[1..] == rest;
    } else {
      var s := piece + [c] + rest;
      assert s[0] == piece[0];
      assert s[1..] == piece[1..] + [c] + rest;
      SplitOnPiece(piece[1..], c, rest);
      assert [piece[0]] + piece[1..] == piece;
    }
  }

  function JoinWith(parts: seq<string>, c: char): string
    requires |parts| >= 1
  {
    if |parts| == 1 then parts[0] else parts[0] + [c] + JoinWith(parts[1..], c)
  }

  /** Splitting loses nothing: joining the pieces with the separator restores the string. */
  lemma {:induction false} JoinSplit(s: string, c: char)
    ensures JoinWith(SplitOn(s, c), c) == s
  {
    if s != [] {
      JoinSplit(s[1..], c);
      var tail := SplitOn(s[1..], c);
      if s[0] != c {
        var r := SplitOn(s, c);
        if |tail| == 1 {
          assert r == [[s[0]] + tail[0]];
        } else {
          assert r[1..] == tail[1..];
          assert JoinWith(r, c) == [s[0]] + tail[0] + [c] + JoinWith(tail[1..], c);
        }
      }
    }
  }

  // ---------------------------------------------------------------- JSON.stringify(string)

  function HexDigit(d: nat): char
    requires d < 16
  {
    if d < 10 then DigitChar(d) else ('a' as int + d - 10) as char
  }

  /** How `JSON.stringify` writes one character inside a string literal. */
  function JsonEscapeChar(c: char): (r: string)
    ensures |r| >= 1
  {
    if c == '"' then "\\\""
    else if c == '\\' then "\\\\"
    else if c == '\U{0008}' then "\\b"
    else if c == '\U{000C}' then "\\f"
    else if c == '\n' then "\\n"
    else if c == '\r' then "\\r"
    else if c == '\t' then "\\t"
    else if c < ' ' then "\\u00" + [HexDigit(c as int / 16), HexDigit(c as int % 16)]
    else [c]
  }

  /** Characters `JSON.stringify` writes verbatim. */
  predicate NeedsNoEscape(c: char) { c >= ' ' && c != '"' && c != '\\' }

  function JsonEscape(s: string): string {
    if s == [] then [] else JsonEscapeChar(s[0]) + JsonEscape(s[1..])
  }

  /** `JSON.stringify(s)` for a string `s`. */
  function JsonQuote(s: string): string {
    "\"" + JsonEscape(s) + "\""
  }

  /** Text without quotes, backslashes or control characters is quoted verbatim. */
  lemma {:induction false} JsonEscapePlain(s: string)
    requires forall i :: 0 <= i < |s| ==> NeedsNoEscape(s[i])
    ensures JsonEscape(s) == s
  {
    if s != [] {
      JsonEscapePlain(s[1..]);
    }
  }

  /** Escaping works character by character, so it distributes over concatenation. */
  lemma {:induction false} JsonEscapeConcat(a: string, b: string)
    ensures JsonEscape(a + b) == JsonEscape(a) + JsonEscape(b)
  {
    if a == [] {
      assert a + b == b;
    } else {
      assert (a + b)[0] == a[0];
      assert (a + b)[1..] == a[1..] + b;
      JsonEscapeConcat(a[1..], b);
    }
  }

  /** A quoted string never contains a raw line break, so it always stays on one line. */
  lemma {:induction false} JsonEscapeHasNoNewline(s: string)
    ensures '\n' !in JsonEscape(s)
  {
    if s != [] {
      JsonEscapeHasNoNewline(s[1..]);
      var e := JsonEscapeChar(s[0]);
      assert '\n' !in e;
    }
  }
}
