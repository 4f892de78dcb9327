/**
 * String primitives of the .NET runtime that the web server's handlers rely on:
 * invariant lower-casing, ordinal case-insensitive comparison,
 * `string.IsNullOrEmpty`, `string.IsNullOrWhiteSpace`, `int.TryParse` and
 * `long.TryParse` with the default `NumberStyles.Integer`, and the decimal
 * rendering `long.ToString()` uses for non-negative numbers.
 *
 * Case mapping is modelled on the ASCII letters only; every other character
 * maps to itself.
 */
module Text {
  import opened Wrappers

  // ---------------------------------------------------------------------------
  // Case mapping

  function LowerChar(c: char): char {
    if 'A' <= c <= 'Z' then (c as int + 32) as char else c
  }

  function UpperChar(c: char): char {
    if 'a' <= c <= 'z' then (c as int - 32) as char else c
  }

  /** `s.ToLower(CultureInfo.InvariantCulture)`, character by character. */
  function Lower(s: string): string {
    seq(|s|, i requires 0 <= i < |s| => LowerChar(s[i]))
  }

  /** Lower-casing twice is lower-casing once: every lower-cased string is a fixed point. */
  lemma LowerIdempotent(s: string)
    ensures Lower(Lower(s)) == Lower(s)
  {
    forall i | 0 <= i < |s|
      ensures Lower(Lower(s))[i] == Lower(s)[i]
    {
      assert Lower(s)[i] == LowerChar(s[i]);
    }
  }

  /**
   * `a.Equals(b, StringComparison.OrdinalIgnoreCase)`: same length and the
   * same characters after upper-casing each one. A null `b` never matches.
   */
  predicate EqualsIgnoreCase(a: string, b: Option<string>) {
    b.Some? && |a| == |b.value| &&
    forall i :: 0 <= i < |a| ==> UpperChar(a[i]) == UpperChar(b.value[i])
  }

  /**
   * For a string made of lower-case ASCII letters, comparing ignoring case is
   * the same as comparing with the lower-cased other string.
   */
  lemma EqualsIgnoreCaseLower(a: string, b: string)
    requires forall i :: 0 <= i < |a| ==> 'a' <= a[i] <= 'z'
    ensures EqualsIgnoreCase(a, Some(b)) <==> Lower(b) == a
  {
    if EqualsIgnoreCase(a, Some(b)) {
      forall i | 0 <= i < |a|
        ensures Lower(b)[i] == a[i]
      {
        assert UpperChar(a[i]) == UpperChar(b[i]);
      }
    }
    if Lower(b) == a {
      forall i | 0 <= i < |a|
        ensures UpperChar(a[i]) == UpperChar(b[i])
      {
        assert LowerChar(b[i]) == a[i];
      }
    }
  }

  // ---------------------------------------------------------------------------
  // Null, empty and blank strings

  predicate IsNullOrEmpty(s: Option<string>) {
    s.None? || s.value == ""
  }

  /** `char.IsWhiteSpace`: the Unicode space separators, line and paragraph separators, and U+0009..U+000D, U+0085. */
  predicate IsWhiteSpace(c: char) {
    c == ' ' || '\t' <= c <= '\r' || c == '\U{85}' || c == '\U{A0}' || c == '\U{1680}' ||
    '\U{2000}' <= c <= '\U{200A}' || c == '\U{2028}' || c == '\U{2029}' ||
    c == '\U{202F}' || c == '\U{205F}' || c == '\U{3000}'
  }

  predicate IsNullOrWhiteSpace(s: Option<string>) {
    s.None? || forall i :: 0 <= i < |s.value| ==> IsWhiteSpace(s.value[i])
  }

  // ---------------------------------------------------------------------------
  // Integer parsing

  const Int32Min: int := -0x8000_0000
  const Int32Max: int := 0x7FFF_FFFF
  const Int64Min: int := -0x8000_0000_0000_0000
  const Int64Max: int := 0x7FFF_FFFF_FFFF_FFFF

  /** The white space `NumberStyles.AllowLeadingWhite`/`AllowTrailingWhite` skip: U+0009..U+000D and U+0020. */
  predicate IsNumberWhite(c: char) {
    c == ' ' || '\t' <= c <= '\r'
  }

  predicate IsDigit(c: char) {
    '0' <= c <= '9'
  }

  predicate AllDigits(s: string) {
    forall i :: 0 <= i < |s| ==> IsDigit(s[i])
  }

  function TrimStart(s: string): (r: string)
    ensures |r| <= |s| && r == s[|s| - |r|..]
    ensures r != [] ==> !IsNumberWhite(r[0])
  {
    if |s| > 0 && IsNumberWhite(s[0]) then TrimStart(s[1..]) else s
  }

  function TrimEnd(s: string): (r: string)
    ensures |r| <= |s| && r == s[..|r|]
    ensures r != [] ==> !IsNumberWhite(r[|r| - 1])
    ensures |s| > 0 && !IsNumberWhite(s[0]) ==> r != []
  {
    if |s| > 0 && IsNumberWhite(s[|s| - 1]) then TrimEnd(s[..|s| - 1]) else s
  }

  function DigitValue(c: char): nat
    requires IsDigit(c)
  {
    c as int - '0' as int
  }

  /** The value of a string of decimal digits, most significant first. */
  function DigitsValue(ds: string): nat
    requires AllDigits(ds)
  {
    if ds == [] then 0 else DigitsValue(ds[..|ds| - 1]) * 10 + DigitValue(ds[|ds| - 1])
  }

  /** The text between the white space `NumberStyles.Integer` allows around a number. */
  function TrimNumber(s: string): string {
    TrimEnd(TrimStart(s))
  }

  /** An optional `+` or `-` followed by at least one decimal digit, and nothing else. */
  function ParseSigned(t: string): Option<int> {
    var signed := |t| > 0 && (t[0] == '-' || t[0] == '+');
    var digits := if signed then t[1..] else t;
    if digits == [] || !AllDigits(digits) then None
    else
      var m: int := DigitsValue(digits);
      Some(if signed && t[0] == '-' then -m else m)
  }

  /**
   * `TryParse` under `NumberStyles.Integer` into an integer type whose range
   * is [lo, hi]: optional white space, an optional `+` or `-`, at least one
   * decimal digit, optional white space; a null string, any other text, or a
   * value outside the range fails.
   */
  function ParseInteger(s: Option<string>, lo: int, hi: int): (r: Option<int>)
    ensures r.Some? ==> lo <= r.value <= hi
  {
    if s.None? then None
    else
      match ParseSigned(TrimNumber(s.value))
      case None => None
      case Some(v) => if lo <= v <= hi then Some(v) else None
  }

  /** `int.TryParse(s, out v)`. */
  function TryParseInt(s: Option<string>): Option<int> {
    ParseInteger(s, Int32Min, Int32Max)
  }

  /** `long.TryParse(s, out v)`. */
  function TryParseLong(s: Option<string>): Option<int> {
    ParseInteger(s, Int64Min, Int64Max)
  }

  /** A blank or null string never parses as a number. */
  lemma BlankIsNotANumber(s: Option<string>, lo: int, hi: int)
    requires IsNullOrWhiteSpace(s)
    ensures ParseInteger(s, lo, hi) == None
  {
    if s.Some? {
      var u := TrimStart(s.value);
      var t := TrimEnd(u);
      if |t| > 0 {
        var k := |s.value| - |u|;
        assert t[0] == u[0] == s.value[k];
        WhiteIsNotNumeric(s.value[k]);
        UnsignedNonDigit(t);
      } else {
        assert ParseSigned(t) == None;
      }
    }
  }

  lemma WhiteIsNotNumeric(c: char)
    requires IsWhiteSpace(c)
    ensures !IsDigit(c) && c != '-' && c != '+'
  {
  }

  lemma UnsignedNonDigit(t: string)
    requires |t| > 0 && !IsDigit(t[0]) && t[0] != '-' && t[0] != '+'
    ensures ParseSigned(t) == None
  {
  }

  /** Text that does not start with a digit or a sign, after white space, is not a number. */
  lemma NotANumber(s: string, lo: int, hi: int)
    requires |s| > 0 && !IsNumberWhite(s[0]) && !IsDigit(s[0]) && s[0] != '-' && s[0] != '+'
    ensures ParseInteger(Some(s), lo, hi) == None
  {
    assert TrimStart(s) == s;
    assert TrimNumber(s)[0] == s[0];
    assert ParseSigned(TrimNumber(s)) == None;
  }

  // ---------------------------------------------------------------------------
  // Decimal rendering

  function DigitChar(d: nat): char
    requires d < 10
  {
    ('0' as int + d) as char
  }

  /** `n.ToString()` for a non-negative `n`: its decimal digits, no sign, no leading zeros. */
  function Decimal(n: nat): (r: string)
    ensures r != [] && AllDigits(r)
  {
    if n < 10 then [DigitChar(n)] else Decimal(n / 10) + [DigitChar(n % 10)]
  }

  lemma {:induction false} DecimalValue(n: nat)
    ensures DigitsValue(Decimal(n)) == n
  {
    if n >= 10 {
      var r := Decimal(n);
      assert r[..|r| - 1] == Decimal(n / 10);
      DecimalValue(n / 10);
    }
  }

  /** A plain string of digits is read as its value. */
  lemma DigitsParse(r: string)
    requires r != [] && AllDigits(r)
    ensures ParseSigned(TrimNumber(r)) == Some(DigitsValue(r))
  {
    assert !IsNumberWhite(r[0]) && !IsNumberWhite(r[|r| - 1]);
    assert TrimStart(r) == r;
    assert TrimEnd(r) == r;
    assert r[0] != '-' && r[0] != '+';
  }

  /** Rendering a number in range and parsing it back gives the number: the two agree on the digits. */
  lemma DecimalRoundTrip(n: nat, lo: int, hi: int)
    requires lo <= n <= hi
    ensures ParseInteger(Some(Decimal(n)), lo, hi) == Some(n)
  {
    DigitsParse(Decimal(n));
    DecimalValue(n);
  }
}
