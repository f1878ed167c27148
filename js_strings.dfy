/** The JavaScript string and number operations the plugin relies on. */
module JsStrings {

  /** WhiteSpace and LineTerminator characters of ECMAScript: what `trim` and `parseInt` skip. */
  predicate IsJsWhitespace(c: char) {
    || c == '\t' || c == '\n' || c == '\U{000B}' || c == '\U{000C}' || c == '\r' || c == ' '
    || c == '\U{00A0}' || c == '\U{1680}' || ('\U{2000}' <= c <= '\U{200A}')
    || c == '\U{2028}' || c == '\U{2029}' || c == '\U{202F}' || c == '\U{205F}'
    || c == '\U{3000}' || c == '\U{FEFF}'
  }

  /** The characters a regular expression `.` does not match. */
  predicate IsLineTerminator(c: char) {
    c == '\n' || c == '\r' || c == '\U{2028}' || c == '\U{2029}'
  }

  /** `s` with its leading whitespace removed. */
  function TrimStart(s: string): (r: string)
    ensures |r| <= |s| && r == s[|s| - |r|..]
    ensures r == [] || !IsJsWhitespace(r[0])
  {
    if s != [] && IsJsWhitespace(s[0]) then TrimStart(s[1..]) else s
  }

  /** `TrimStart` removes only whitespace. */
  lemma {:induction false} TrimStartRemovesBlanks(s: string)
    ensures forall i :: 0 <= i < |s| - |TrimStart(s)| ==> IsJsWhitespace(s[i])
    decreases |s|
  {
    if s != [] && IsJsWhitespace(s[0]) {
      TrimStartRemovesBlanks(s[1..]);
      forall i | 1 <= i < |s| - |TrimStart(s)| ensures IsJsWhitespace(s[i]) {
        assert s[i] == s[1..][i - 1];
      }
    }
  }

  /** `s` with its trailing whitespace removed. */
  function TrimEnd(s: string): (r: string)
    ensures |r| <= |s| && r == s[..|r|]
    ensures r == [] || !IsJsWhitespace(r[|r| - 1])
  {
    if s != [] && IsJsWhitespace(s[|s| - 1]) then TrimEnd(s[..|s| - 1]) else s
  }

  /** `TrimEnd` removes only whitespace. */
  lemma {:induction false} TrimEndRemovesBlanks(s: string)
    ensures forall i :: |TrimEnd(s)| <= i < |s| ==> IsJsWhitespace(s[i])
    decreases |s|
  {
    if s != [] && IsJsWhitespace(s[|s| - 1]) {
      TrimEndRemovesBlanks(s[..|s| - 1]);
      forall i | |TrimEnd(s)| <= i < |s| - 1 ensures IsJsWhitespace(s[i]) {
        assert s[i] == s[..|s| - 1][i];
      }
    }
  }

  /** `String.prototype.trim`. */
  function Trim(s: string): string {
    TrimEnd(TrimStart(s))
  }

  /** `String.prototype.startsWith`. */
  predicate StartsWith(s: string, prefix: string) {
    |prefix| <= |s| && s[..|prefix|] == prefix
  }

  /** `toUpperCase` on one character, restricted to ASCII letters. */
  function UpperAscii(c: char): char {
    if 'a' <= c <= 'z' then (c as int - 32) as char else c
  }

  /** `toLowerCase` on one character, restricted to ASCII letters. */
  function LowerAscii(c: char): char {
    if 'A' <= c <= 'Z' then (c as int + 32) as char else c
  }

  /** `toLowerCase` on a string, restricted to ASCII letters. */
  function LowerString(s: string): (r: string)
    ensures |r| == |s|
    ensures forall i :: 0 <= i < |s| ==> r[i] == LowerAscii(s[i])
  {
    seq(|s|, i requires 0 <= i < |s| => LowerAscii(s[i]))
  }

  predicate IsDigit(c: char) {
    '0' <= c <= '9'
  }

  predicate AllDigits(s: string) {
    forall i :: 0 <= i < |s| ==> IsDigit(s[i])
  }

  function DigitChar(d: nat): (c: char)
    requires d < 10
    ensures IsDigit(c)
  {
    ('0' as int + d) as char
  }

  /** The decimal numeral of `n`: digits only, no leading zero. */
  function Digits(n: nat): (r: string)
    ensures |r| > 0 && AllDigits(r)
    ensures r[0] == '0' ==> n == 0
    decreases n
  {
    if n < 10 then [DigitChar(n)] else Digits(n / 10) + [DigitChar(n % 10)]
  }

  /** How JavaScript renders an integral number in a template literal. */
  function NumberToString(i: int): string {
    if i < 0 then "-" + Digits(-i) else Digits(i)
  }

  /** The value of a digit string. */
  function DigitsValue(ds: string): nat
    requires AllDigits(ds)
  {
    if ds == [] then 0 else DigitsValue(ds[..|ds| - 1]) * 10 + (ds[|ds| - 1] as int - '0' as int)
  }

  /** The length of the longest digit prefix of `s`. */
  function DigitPrefix(s: string): (n: nat)
    ensures n <= |s| && AllDigits(s[..n])
    ensures n < |s| ==> !IsDigit(s[n])
  {
    if s != [] && IsDigit(s[0]) then
      var k := DigitPrefix(s[1..]);
      assert s[..k + 1] == [s[0]] + s[1..][..k];
      k + 1
    else 0
  }

  /** A JavaScript number produced by `parseInt`: an integer or NaN. */
  datatype ParsedInt = Int(value: int) | NaN

  /**
    * `parseInt(s)` for decimal input: leading whitespace, an optional sign, then the
    * longest run of digits; NaN when there is no digit.
    */
  function ParseInt(s: string): ParsedInt {
    ParseSigned(TrimStart(s))
  }

  /** `parseInt` after the leading whitespace. */
  function ParseSigned(t: string): ParsedInt {
    if t != [] && t[0] == '-' then
      match ParseUnsigned(t[1..])
      case Int(v) => Int(-v)
      case NaN => NaN
    else if t != [] && t[0] == '+' then ParseUnsigned(t[1..])
    else ParseUnsigned(t)
  }

  /** `parseInt` after the sign: the value of the longest digit prefix. */
  function ParseUnsigned(u: string): ParsedInt {
    var n := DigitPrefix(u);
    if n == 0 then NaN else Int(DigitsValue(u[..n]))
  }

  lemma {:induction false} DigitsValueOfDigits(n: nat)
    ensures DigitsValue(Digits(n)) == n
    decreases n
  {
    var r := Digits(n);
    if n >= 10 {
      DigitsValueOfDigits(n / 10);
      assert r[..|r| - 1] == Digits(n / 10);
    }
  }

  lemma {:induction false} DigitPrefixOfDigits(ds: string, suffix: string)
    requires AllDigits(ds)
    requires suffix == [] || !IsDigit(suffix[0])
    ensures DigitPrefix(ds + suffix) == |ds|
    decreases |ds|
  {
    if ds != [] {
      assert (ds + suffix)[1..] == ds[1..] + suffix;
      DigitPrefixOfDigits(ds[1..], suffix);
    } else {
      assert ds + suffix == suffix;
    }
  }

  /** `parseInt` of a digit string followed by a non-digit reads exactly that digit string. */
  lemma UnsignedPrefix(ds: string, suffix: string)
    requires |ds| > 0 && AllDigits(ds)
    requires suffix == [] || !IsDigit(suffix[0])
    ensures DigitPrefix(ds + suffix) == |ds| && (ds + suffix)[..|ds|] == ds
  {
    DigitPrefixOfDigits(ds, suffix);
  }

  lemma DigitIsNotWhitespace(c: char)
    requires IsDigit(c) || c == '-'
    ensures !IsJsWhitespace(c)
  {
  }

  lemma TrimStartKeeps(s: string)
    requires s != [] && !IsJsWhitespace(s[0])
    ensures TrimStart(s) == s
  {
  }

  lemma TrimEndKeeps(s: string)
    requires s != [] && !IsJsWhitespace(s[|s| - 1])
    ensures TrimEnd(s) == s
  {
  }

  /** `parseInt` of a numeral that starts with a digit. */
  lemma ParseIntUnsigned(d: string, suffix: string)
    requires |d| > 0 && AllDigits(d)
    requires suffix == [] || !IsDigit(suffix[0])
    ensures ParseInt(d + suffix) == Int(DigitsValue(d))
  {
    var s := d + suffix;
    assert s[0] == d[0];
    DigitIsNotWhitespace(s[0]);
    TrimStartKeeps(s);
    UnsignedPrefix(d, suffix);
  }

  lemma ParseSignedMinus(u: string, v: int)
    requires ParseUnsigned(u) == Int(v)
    ensures ParseSigned(['-'] + u) == Int(-v)
  {
    assert (['-'] + u)[1..] == u;
  }

  lemma UnsignedOfDigits(d: string, suffix: string)
    requires |d| > 0 && AllDigits(d)
    requires suffix == [] || !IsDigit(suffix[0])
    ensures ParseUnsigned(d + suffix) == Int(DigitsValue(d))
  {
    UnsignedPrefix(d, suffix);
  }

  /** `parseInt` of a minus sign followed by an unsigned numeral. */
  lemma ParseIntNegative(u: string, v: int)
    requires ParseUnsigned(u) == Int(v)
    ensures ParseInt(['-'] + u) == Int(-v)
  {
    DigitIsNotWhitespace('-');
    TrimStartKeeps(['-'] + u);
    ParseSignedMinus(u, v);
  }

  /** `parseInt` of `-` and the numeral of a positive `n`, then a non-digit, gives `-n`. */
  lemma NegativeNumberRoundTrip(n: int, suffix: string)
    requires n > 0
    requires suffix == [] || !IsDigit(suffix[0])
    ensures ParseInt(NumberToString(-n) + suffix) == Int(-n)
  {
    var ds := Digits(n);
    DigitsValueOfDigits(n);
    UnsignedOfDigits(ds, suffix);
    assert NumberToString(-n) == ['-'] + ds;
    assert NumberToString(-n) + suffix == ['-'] + (ds + suffix);
    ParseIntNegative(ds + suffix, n);
  }

  /**
    * Reading a rendered number back: `parseInt` of the numeral of `i`, followed by
    * anything that does not start with a digit, gives `i`.
    */
  lemma ParseIntOfNumber(i: int, suffix: string)
    requires suffix == [] || !IsDigit(suffix[0])
    ensures ParseInt(NumberToString(i) + suffix) == Int(i)
  {
    if i < 0 {
      NegativeNumberRoundTrip(-i, suffix);
    } else {
      DigitsValueOfDigits(i);
      ParseIntUnsigned(Digits(i), suffix);
    }
  }
}
