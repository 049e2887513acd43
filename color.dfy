/**
 * The colour utilities of the dashboard script: `hexToRgb` parses a hex colour
 * and `shadeColor` lightens or darkens one by a percentage.
 */
module Color {
  import opened Wrappers
  import opened Format

  datatype Rgb = Rgb(r: int, g: int, b: int)

  predicate IsChannel(v: int) {
    0 <= v <= 255
  }

  predicate InRange(c: Rgb) {
    IsChannel(c.r) && IsChannel(c.g) && IsChannel(c.b)
  }

  /** Every character from position `k` on is a hex digit. */
  predicate HexDigitsFrom(s: string, k: nat) {
    forall i :: k <= i < |s| ==> IsHexDigit(s[i])
  }

  /** Every character from position `k` on is a digit as `toString(16)` writes it. */
  predicate LowerHexDigitsFrom(s: string, k: nat) {
    forall i :: k <= i < |s| ==> IsLowerHexDigit(s[i])
  }

  /**
   * The strings `/^#?([a-f\d]{2})([a-f\d]{2})([a-f\d]{2})$/i` matches: an optional
   * leading '#' and then exactly six hex digits in either case.
   */
  predicate IsHexColor(s: string)
    ensures IsHexColor(s) ==> |s| >= 6 && HexDigitsFrom(s, |s| - 6) && (|s| == 7 <==> s[0] == '#')
  {
    (|s| == 6 && HexDigitsFrom(s, 0)) || (|s| == 7 && s[0] == '#' && HexDigitsFrom(s, 1))
  }

  /** The value of a pair of hex digits, high digit first. */
  function PairValue(hi: char, lo: char): (v: nat)
    requires IsHexDigit(hi) && IsHexDigit(lo)
    ensures v < 256
  {
    16 * HexDigitValue(hi) + HexDigitValue(lo)
  }

  /** The three channels held by the six hex digits that start at position `k`. */
  function ChannelsAt(s: string, k: nat): (c: Rgb)
    requires k + 6 == |s| && HexDigitsFrom(s, k)
    ensures InRange(c)
  {
    Rgb(PairValue(s[k], s[k + 1]), PairValue(s[k + 2], s[k + 3]), PairValue(s[k + 4], s[k + 5]))
  }

  /**
   * `hexToRgb`: the optional '#' is consumed, the rest must be three pairs of hex
   * digits, each read as a number; anything else gives `null`.
   */
  function HexToRgb(hex: string): (res: Option<Rgb>)
    ensures res.Some? <==> IsHexColor(hex)
    ensures res.Some? ==> InRange(res.value) && res.value == ChannelsAt(hex, |hex| - 6)
  {
    if |hex| > 0 && hex[0] == '#' then
      if |hex| == 7 && HexDigitsFrom(hex, 1) then Some(ChannelsAt(hex, 1)) else None
    else if |hex| == 6 && HexDigitsFrom(hex, 0) then
      Some(ChannelsAt(hex, 0))
    else
      None
  }

  /** The six digits the pattern's three groups capture together. */
  function ColorDigits(s: string): (d: string)
    requires IsHexColor(s)
    ensures |d| == 6 && AllHex(d)
    ensures forall i :: 0 <= i < 6 ==> d[i] == s[|s| - 6 + i]
  {
    s[|s| - 6..]
  }

  /** Each channel `hexToRgb` returns is `parseInt(group, 16)` of its captured group. */
  lemma HexToRgbParsesGroups(hex: string)
    requires IsHexColor(hex)
    ensures var d := ColorDigits(hex);
      && AllHex(d[..2]) && AllHex(d[2..4]) && AllHex(d[4..])
      && HexToRgb(hex) == Some(Rgb(ParseHex(d[..2]), ParseHex(d[2..4]), ParseHex(d[4..])))
  {
    var d := ColorDigits(hex);
    ParseHex2(d[..2]);
    ParseHex2(d[2..4]);
    ParseHex2(d[4..]);
  }

  /** '#' followed by three two-character strings, character by character. */
  lemma HashAndPairs(a: string, b: string, c: string)
    requires |a| == 2 && |b| == 2 && |c| == 2
    ensures "#" + a + b + c == ['#', a[0], a[1], b[0], b[1], c[0], c[1]]
  {
  }

  /** `#${toHex(r)}${toHex(g)}${toHex(b)}`: the encoding `shadeColor` writes. */
  function RgbToHex(c: Rgb): (s: string)
    requires InRange(c)
    ensures |s| == 7 && s[0] == '#' && LowerHexDigitsFrom(s, 1)
  {
    HashAndPairs(ToHex2(c.r), ToHex2(c.g), ToHex2(c.b));
    "#" + ToHex2(c.r) + ToHex2(c.g) + ToHex2(c.b)
  }

  /** Writing channels with `RgbToHex` and reading them with `HexToRgb` gives them back. */
  lemma HexToRgbOfRgbToHex(c: Rgb)
    requires InRange(c)
    ensures HexToRgb(RgbToHex(c)) == Some(c)
  {
    HashAndPairs(ToHex2(c.r), ToHex2(c.g), ToHex2(c.b));
  }

  /** A pair of digits read as a channel and written back comes back in lower case. */
  lemma ToHex2OfPair(hi: char, lo: char)
    requires IsHexDigit(hi) && IsHexDigit(lo)
    ensures ToHex2(PairValue(hi, lo)) == [LowerCaseHex(hi), LowerCaseHex(lo)]
  {
    ToHex2OfDigits(hi, lo);
  }

  /** The channels of a well-formed colour, pair by pair of its digits. */
  lemma HexToRgbOfDigits(hex: string)
    requires IsHexColor(hex)
    ensures var d := ColorDigits(hex);
      HexToRgb(hex) == Some(Rgb(PairValue(d[0], d[1]), PairValue(d[2], d[3]), PairValue(d[4], d[5])))
  {
  }

  lemma HashAndLowerCase(d: string)
    requires |d| == 6 && AllHex(d)
    ensures "#" + LowerCaseHexString(d) == ['#', LowerCaseHex(d[0]), LowerCaseHex(d[1]), LowerCaseHex(d[2]),
                                              LowerCaseHex(d[3]), LowerCaseHex(d[4]), LowerCaseHex(d[5])]
  {
    var l := LowerCaseHexString(d);
    assert "#" + l == ['#', l[0], l[1], l[2], l[3], l[4], l[5]];
  }

  /** Parsing a hex colour and writing it back gives '#' and its digits in lower case. */
  lemma RgbToHexOfHexToRgb(hex: string)
    requires IsHexColor(hex)
    ensures RgbToHex(HexToRgb(hex).value) == "#" + LowerCaseHexString(ColorDigits(hex))
  {
    var d := ColorDigits(hex);
    HexToRgbOfDigits(hex);
    var c := HexToRgb(hex).value;
    ToHex2OfPair(d[0], d[1]);
    ToHex2OfPair(d[2], d[3]);
    ToHex2OfPair(d[4], d[5]);
    HashAndPairs(ToHex2(c.r), ToHex2(c.g), ToHex2(c.b));
    HashAndLowerCase(d);
  }

  /** `Math.round(n / 100)` for an integer `n`: the nearest integer, halves rounded up. */
  function RoundDiv100(n: int): (q: int)
    ensures 100 * q - 50 <= n < 100 * q + 50
  {
    (n + 50) / 100
  }

  /** `Math.min(255, Math.max(0, x))`. */
  function Clamp(x: int): (v: int)
    ensures IsChannel(v)
    ensures IsChannel(x) ==> v == x
    ensures x < 0 ==> v == 0
    ensures x > 255 ==> v == 255
  {
    var low := if 0 < x then x else 0;
    if 255 < low then 255 else low
  }

  lemma ProductSign(v: int, percent: int)
    requires v >= 0
    ensures percent <= 0 ==> v * percent <= 0
    ensures percent >= 0 ==> v * percent >= 0
    ensures percent <= -100 ==> v * percent <= -100 * v
    ensures percent >= 100 ==> v * percent >= 100 * v
  {
  }

  /** The `shade` step of `shadeColor`: `v + Math.round(v * percent / 100)`, clamped to a channel. */
  function ShadeChannel(v: int, percent: int): (s: int)
    requires IsChannel(v)
    ensures IsChannel(s)
    ensures percent == 0 ==> s == v
    ensures percent <= 0 ==> s <= v
    ensures percent >= 0 ==> s >= v
    ensures percent <= -100 ==> s == 0
    ensures percent >= 100 && v >= 128 ==> s == 255
  {
    ProductSign(v, percent);
    Clamp(v + RoundDiv100(v * percent))
  }

  function ShadeRgb(c: Rgb, percent: int): (d: Rgb)
    requires InRange(c)
    ensures InRange(d)
  {
    Rgb(ShadeChannel(c.r, percent), ShadeChannel(c.g, percent), ShadeChannel(c.b, percent))
  }

  /**
   * `shadeColor(hex, percent)`: a malformed colour comes back unchanged; a
   * well-formed one comes back as '#' and six lower-case digits whose channels
   * are the shaded channels of the input.
   */
  function ShadeColor(hex: string, percent: int): (s: string)
    ensures !IsHexColor(hex) ==> s == hex
    ensures IsHexColor(hex) ==> |s| == 7 && s[0] == '#' && LowerHexDigitsFrom(s, 1)
  {
    match HexToRgb(hex)
    case None => hex
    case Some(c) => RgbToHex(ShadeRgb(c, percent))
  }

  /** The channels of a shaded well-formed colour are the shaded channels of the input. */
  lemma ShadeColorChannels(hex: string, percent: int)
    requires IsHexColor(hex)
    ensures HexToRgb(ShadeColor(hex, percent)) == Some(ShadeRgb(HexToRgb(hex).value, percent))
  {
    HexToRgbOfRgbToHex(ShadeRgb(HexToRgb(hex).value, percent));
  }

  /** Shading by 0% only normalises the colour: '#' and lower-case digits. */
  lemma ShadeColorZero(hex: string)
    requires IsHexColor(hex)
    ensures ShadeColor(hex, 0) == "#" + LowerCaseHexString(ColorDigits(hex))
  {
    var c := HexToRgb(hex).value;
    assert ShadeRgb(c, 0) == c;
    RgbToHexOfHexToRgb(hex);
  }

  /** Shading by -100% or less gives black. */
  lemma ShadeColorBlack(hex: string, percent: int)
    requires IsHexColor(hex) && percent <= -100
    ensures ShadeColor(hex, percent) == "#000000"
  {
    var c := HexToRgb(hex).value;
    assert ShadeRgb(c, percent) == Rgb(0, 0, 0);
    assert ToHex2(0) == "00";
    HashAndPairs("00", "00", "00");
  }
}
