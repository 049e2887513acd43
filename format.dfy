/**
 * The number formatting and parsing the dashboard script relies on, for the
 * non-negative integers it handles: `parseInt(s, 16)`, `Number.prototype.toString(16)`,
 * `String.prototype.padStart`, `String(n)` and `Number.prototype.toFixed(2)`.
 */
module Format {

  // ---------------------------------------------------------------------------
  // Hexadecimal digits
  // ---------------------------------------------------------------------------

  /** The class `[a-f\d]` under the regular expression's case-insensitive flag. */
  predicate IsHexDigit(c: char) {
    '0' <= c <= '9' || 'a' <= c <= 'f' || 'A' <= c <= 'F'
  }

  /** A digit as `toString(16)` writes it. */
  predicate IsLowerHexDigit(c: char) {
    '0' <= c <= '9' || 'a' <= c <= 'f'
  }

  predicate AllHex(s: string) {
    forall i :: 0 <= i < |s| ==> IsHexDigit(s[i])
  }

  predicate AllLowerHex(s: string) {
    forall i :: 0 <= i < |s| ==> IsLowerHexDigit(s[i])
  }

  function HexDigitValue(c: char): (v: nat)
    requires IsHexDigit(c)
    ensures v < 16
  {
    if '0' <= c <= '9' then c as int - '0' as int
    else if 'a' <= c <= 'f' then c as int - 'a' as int + 10
    else c as int - 'A' as int + 10
  }

  /** The digit `toString(16)` writes for a value below 16. */
  function LowerHexDigit(v: nat): (c: char)
    requires v < 16
    ensures IsLowerHexDigit(c) && IsHexDigit(c)
    ensures HexDigitValue(c) == v
  {
    if v < 10 then ('0' as int + v) as char else ('a' as int + v - 10) as char
  }

  /** `toLowerCase` on a hex digit. */
  function LowerCaseHex(c: char): (d: char)
    requires IsHexDigit(c)
  {
    if 'A' <= c <= 'F' then (c as int - 'A' as int + 'a' as int) as char else c
  }

  /** `toLowerCase` on a string of hex digits. */
  function LowerCaseHexString(s: string): (t: string)
    requires AllHex(s)
    ensures |t| == |s|
    ensures forall i :: 0 <= i < |s| ==> t[i] == LowerCaseHex(s[i])
  {
    if s == [] then [] else [LowerCaseHex(s[0])] + LowerCaseHexString(s[1..])
  }

  /** Writing back the value of a digit gives the digit in lower case. */
  lemma LowerHexDigitOfValue(c: char)
    requires IsHexDigit(c)
    ensures LowerHexDigit(HexDigitValue(c)) == LowerCaseHex(c)
  {
  }

  /** `toString(16)` of a non-negative integer: lower-case digits, no leading zero. */
  function ToString16(v: nat): (s: string)
    ensures 1 <= |s| && AllLowerHex(s) && AllHex(s)
    ensures |s| == 1 <==> v < 16
    ensures s[0] == '0' ==> v == 0
    decreases v
  {
    if v < 16 then [LowerHexDigit(v)] else ToString16(v / 16) + [LowerHexDigit(v % 16)]
  }

  function Pow16(n: nat): (p: nat)
    ensures p >= 1
  {
    if n == 0 then 1 else 16 * Pow16(n - 1)
  }

  /**
   * `parseInt(s, 16)` of a non-empty string made only of hex digits: a numeral
   * of n digits is below 16^n, and a digit added at the end shifts the rest up.
   */
  function ParseHex(s: string): (v: nat)
    requires 1 <= |s| && AllHex(s)
    ensures v < Pow16(|s|)
  {
    if |s| == 1 then HexDigitValue(s[0])
    else
      var high := ParseHex(s[..|s| - 1]);
      assert high + 1 <= Pow16(|s| - 1);
      16 * high + HexDigitValue(s[|s| - 1])
  }

  /** `parseInt(v.toString(16), 16) == v`. */
  lemma {:induction false} ParseHexOfToString16(v: nat)
    ensures ParseHex(ToString16(v)) == v
  {
    if v >= 16 {
      var s := ToString16(v);
      assert s[..|s| - 1] == ToString16(v / 16);
      ParseHexOfToString16(v / 16);
    }
  }

  lemma ParseHex2(s: string)
    requires |s| == 2 && AllHex(s)
    ensures ParseHex(s) == 16 * HexDigitValue(s[0]) + HexDigitValue(s[1])
  {
    assert s[..1] == [s[0]];
  }

  /** `s.padStart(n, c)` with a one-character filler. */
  function PadStart(s: string, n: nat, c: char): (r: string)
    ensures |r| == if |s| < n then n else |s|
    ensures r[|r| - |s|..] == s
    ensures forall i :: 0 <= i < |r| - |s| ==> r[i] == c
  {
    if |s| >= n then s else seq(n - |s|, _ => c) + s
  }

  /**
   * `v.toString(16).padStart(2, '0')` for a channel value: the high and the low
   * nibble as lower-case digits (`ToHex2IsPaddedToString16` shows the two agree).
   */
  function ToHex2(v: nat): (s: string)
    requires v < 256
    ensures |s| == 2 && AllLowerHex(s) && AllHex(s)
    ensures 16 * HexDigitValue(s[0]) + HexDigitValue(s[1]) == v
  {
    [LowerHexDigit(v / 16), LowerHexDigit(v % 16)]
  }

  /** Padding `toString(16)` to two places with '0' writes exactly the two nibbles. */
  lemma ToHex2IsPaddedToString16(v: nat)
    requires v < 256
    ensures ToHex2(v) == PadStart(ToString16(v), 2, '0')
  {
    if v >= 16 {
      assert ToString16(v / 16) == [LowerHexDigit(v / 16)];
    }
  }

  /** `parseInt(toHex(v), 16) == v`. */
  lemma ParseHexOfToHex2(v: nat)
    requires v < 256
    ensures ParseHex(ToHex2(v)) == v
  {
    ParseHex2(ToHex2(v));
  }

  lemma DivMod16(a: nat, b: nat)
    requires a < 16 && b < 16
    ensures (16 * a + b) / 16 == a && (16 * a + b) % 16 == b
  {
  }

  lemma LowerCaseHexPair(s: string)
    requires |s| == 2 && AllHex(s)
    ensures LowerCaseHexString(s) == [LowerCaseHex(s[0]), LowerCaseHex(s[1])]
  {
  }

  /** Two hex digits read as a number and written back with `ToHex2` come back in lower case. */
  lemma ToHex2OfDigits(hi: char, lo: char)
    requires IsHexDigit(hi) && IsHexDigit(lo)
    ensures 16 * HexDigitValue(hi) + HexDigitValue(lo) < 256
    ensures ToHex2(16 * HexDigitValue(hi) + HexDigitValue(lo)) == [LowerCaseHex(hi), LowerCaseHex(lo)]
  {
    DivMod16(HexDigitValue(hi), HexDigitValue(lo));
    LowerHexDigitOfValue(hi);
    LowerHexDigitOfValue(lo);
  }

  /** `toHex(parseInt(s, 16))` for two hex digits is `s` in lower case. */
  lemma ToHex2OfParseHex(s: string)
    requires |s| == 2 && AllHex(s)
    ensures ParseHex(s) < 256
    ensures ToHex2(ParseHex(s)) == LowerCaseHexString(s)
  {
    ParseHex2(s);
    ToHex2OfDigits(s[0], s[1]);
    LowerCaseHexPair(s);
  }

  // ---------------------------------------------------------------------------
  // Decimal digits
  // ---------------------------------------------------------------------------

  predicate IsDecimalDigit(c: char) {
    '0' <= c <= '9'
  }

  predicate AllDecimal(s: string) {
    forall i :: 0 <= i < |s| ==> IsDecimalDigit(s[i])
  }

  /** A decimal numeral as `String(n)` writes it: digits only, no leading zero. */
  predicate IsCanonicalDecimal(s: string) {
    1 <= |s| && AllDecimal(s) && (s[0] == '0' ==> |s| == 1)
  }

  function DecimalDigit(v: nat): (c: char)
    requires v < 10
    ensures IsDecimalDigit(c)
  {
    ('0' as int + v) as char
  }

  /** `String(n)` for a non-negative integer. */
  function DecimalString(n: nat): (s: string)
    ensures IsCanonicalDecimal(s)
    ensures |s| == 1 <==> n < 10
    decreases n
  {
    if n < 10 then [DecimalDigit(n)] else DecimalString(n / 10) + [DecimalDigit(n % 10)]
  }

  /** The value of a non-empty string of decimal digits. */
  function ParseDecimal(s: string): nat
    requires 1 <= |s| && AllDecimal(s)
  {
    if |s| == 1 then s[0] as int - '0' as int
    else 10 * ParseDecimal(s[..|s| - 1]) + (s[|s| - 1] as int - '0' as int)
  }

  /** Reading back what `String(n)` writes gives `n`. */
  lemma {:induction false} ParseDecimalString(n: nat)
    ensures ParseDecimal(DecimalString(n)) == n
  {
    if n >= 10 {
      var s := DecimalString(n);
      assert s[..|s| - 1] == DecimalString(n / 10);
      ParseDecimalString(n / 10);
    }
  }

  lemma {:induction false} ParseDecimalLeadingDigit(s: string)
    requires 1 <= |s| && AllDecimal(s) && s[0] != '0'
    ensures ParseDecimal(s) >= 1
  {
    if |s| > 1 {
      ParseDecimalLeadingDigit(s[..|s| - 1]);
    }
  }

  /** Every canonical numeral is the one `String` writes for its value: the two are inverse. */
  lemma {:induction false} DecimalStringOfParse(s: string)
    requires IsCanonicalDecimal(s)
    ensures DecimalString(ParseDecimal(s)) == s
  {
    if |s| > 1 {
      var p := s[..|s| - 1];
      ParseDecimalLeadingDigit(p);
      DecimalStringOfParse(p);
      assert s == p + [s[|s| - 1]];
    }
  }

  /** The two decimal places `toFixed(2)` writes for a value below 100. */
  function TwoDecimals(v: nat): (t: string)
    requires v < 100
    ensures |t| == 2 && AllDecimal(t)
    ensures ParseDecimal(t) == v
  {
    var t := [DecimalDigit(v / 10), DecimalDigit(v % 10)];
    assert t[..1] == [t[0]];
    t
  }

  /** `(cents / 100).toFixed(2)` for an amount held in whole cents. */
  function ToFixed2(cents: nat): (s: string)
    ensures |s| >= 4 && s[|s| - 3] == '.'
  {
    DecimalString(cents / 100) + "." + TwoDecimals(cents % 100)
  }

  lemma SplitAtPoint(whole: string, fraction: string)
    requires |fraction| == 2
    ensures var s := whole + "." + fraction;
      s[..|s| - 3] == whole && s[|s| - 3] == '.' && s[|s| - 2..] == fraction
  {
  }

  /**
   * What `toFixed(2)` writes reads back as the amount: a canonical whole part, a
   * point, and two decimal places.
   */
  lemma ToFixed2Value(cents: nat)
    ensures var s := ToFixed2(cents);
      && IsCanonicalDecimal(s[..|s| - 3]) && AllDecimal(s[|s| - 2..])
      && 100 * ParseDecimal(s[..|s| - 3]) + ParseDecimal(s[|s| - 2..]) == cents
  {
    ParseDecimalString(cents / 100);
    SplitAtPoint(DecimalString(cents / 100), TwoDecimals(cents % 100));
  }
}
