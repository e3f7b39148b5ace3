/** `hexToHsl` of src/contexts/ThemeContext.tsx: a strict six-digit hex colour (the `#` optional,
    letters in either case) becomes the text "H S% L%"; anything else becomes "0 0% 0%".
    The arithmetic is done over exact reals. */
module ColorConversion {
  import opened Wrappers
  import Text

  /** A colour as three channel levels, each 0..255 once parsed. */
  datatype Rgb = Rgb(red: nat, green: nat, blue: nat)

  predicate IsByteTriple(c: Rgb)
  {
    c.red < 256 && c.green < 256 && c.blue < 256
  }

  predicate IsHexDigit(c: char)
  {
    '0' <= c <= '9' || 'a' <= c <= 'f' || 'A' <= c <= 'F'
  }

  function HexDigitValue(c: char): (v: nat)
    requires IsHexDigit(c)
    ensures v < 16
  {
    if '0' <= c <= '9' then c as int - '0' as int
    else if 'a' <= c <= 'f' then c as int - 'a' as int + 10
    else c as int - 'A' as int + 10
  }

  predicate AllHexDigits(s: string)
  {
    forall i :: 0 <= i < |s| ==> IsHexDigit(s[i])
  }

  /** The pattern `^#?([a-f\d]{2})([a-f\d]{2})([a-f\d]{2})$`, case-insensitive: an optional `#`
      and exactly six hex digits, nothing else. */
  predicate MatchesHexPattern(s: string)
  {
    || (|s| == 6 && AllHexDigits(s))
    || (|s| == 7 && s[0] == '#' && AllHexDigits(s[1..]))
  }

  /** `parseInt(pair, 16)` of two hex digits. */
  function PairValue(hi: char, lo: char): (v: nat)
    requires IsHexDigit(hi) && IsHexDigit(lo)
    ensures v < 256
  {
    16 * HexDigitValue(hi) + HexDigitValue(lo)
  }

  /** The three captured digit pairs, or nothing when the pattern does not match. */
  function ParseHex(s: string): (r: Option<Rgb>)
    ensures r.Some? <==> MatchesHexPattern(s)
    ensures r.Some? ==> IsByteTriple(r.value)
  {
    var digits := if |s| == 7 && s[0] == '#' then s[1..] else s;
    if |digits| == 6 && AllHexDigits(digits) then
      Some(Rgb(PairValue(digits[0], digits[1]), PairValue(digits[2], digits[3]),
               PairValue(digits[4], digits[5])))
    else
      None
  }

  /** A lower-case hex digit for a value below 16. */
  function HexDigitChar(v: nat): (c: char)
    requires v < 16
    ensures IsHexDigit(c) && HexDigitValue(c) == v
  {
    if v < 10 then ('0' as int + v) as char else ('a' as int + v - 10) as char
  }

  /** Two hex digits for a byte. */
  function ByteToHex(v: nat): (s: string)
    requires v < 256
    ensures |s| == 2 && AllHexDigits(s) && PairValue(s[0], s[1]) == v
  {
    [HexDigitChar(v / 16), HexDigitChar(v % 16)]
  }

  /** Six lower-case hex digits for a colour, the form the palette stores (without the `#`). */
  function ToHex(c: Rgb): (s: string)
    requires IsByteTriple(c)
    ensures |s| == 6 && AllHexDigits(s)
  {
    ByteToHex(c.red) + ByteToHex(c.green) + ByteToHex(c.blue)
  }

  /** Rendering a colour and parsing it back gives the colour, with or without the `#`. */
  lemma ParseToHex(c: Rgb)
    requires IsByteTriple(c)
    ensures ParseHex(ToHex(c)) == Some(c)
    ensures ParseHex("#" + ToHex(c)) == Some(c)
  {
    var s := ToHex(c);
    assert ("#" + s)[1..] == s;
  }

  lemma LowerKeepsHexDigit(c: char)
    ensures IsHexDigit(Text.LowerChar(c)) == IsHexDigit(c)
    ensures IsHexDigit(c) ==> HexDigitValue(Text.LowerChar(c)) == HexDigitValue(c)
  {
  }

  /** Lowering a string keeps exactly its hex digits and their values. */
  lemma LowerKeepsHexDigits(d: string)
    ensures AllHexDigits(Text.Lower(d)) == AllHexDigits(d)
    ensures AllHexDigits(d) ==> forall i :: 0 <= i < |d| ==> HexDigitValue(Text.Lower(d)[i]) == HexDigitValue(d[i])
  {
    forall i | 0 <= i < |d|
      ensures IsHexDigit(Text.Lower(d)[i]) == IsHexDigit(d[i])
      ensures IsHexDigit(d[i]) ==> HexDigitValue(Text.Lower(d)[i]) == HexDigitValue(d[i])
    {
      LowerKeepsHexDigit(d[i]);
    }
  }

  /** Letter case in the input never matters. */
  lemma ParseHexIgnoresCase(s: string)
    ensures ParseHex(Text.Lower(s)) == ParseHex(s)
  {
    var t := Text.Lower(s);
    var hashed := |s| == 7 && s[0] == '#';
    assert hashed <==> |t| == 7 && t[0] == '#';
    var ds := if hashed then s[1..] else s;
    var dt := if hashed then t[1..] else t;
    assert dt == Text.Lower(ds);
    LowerKeepsHexDigits(ds);
  }

  /** A leading `#` may be omitted. */
  lemma ParseHexOptionalHash(s: string)
    requires s == [] || s[0] != '#'
    ensures ParseHex("#" + s) == ParseHex(s)
  {
    assert ("#" + s)[1..] == s;
  }

  /** Two strings that agree up to letter case parse alike. */
  lemma ParseHexCaseInsensitive(s: string, t: string)
    requires Text.Lower(s) == Text.Lower(t)
    ensures ParseHex(s) == ParseHex(t)
  {
    ParseHexIgnoresCase(s);
    ParseHexIgnoresCase(t);
  }

  /** Hue as a fraction of a turn, saturation and lightness as fractions of one. */
  datatype Hsl = Hsl(hue: real, saturation: real, lightness: real)

  function Max3(a: real, b: real, c: real): real
  {
    if a >= b && a >= c then a else if b >= c then b else c
  }

  function Min3(a: real, b: real, c: real): real
  {
    if a <= b && a <= c then a else if b <= c then b else c
  }

  lemma DivBounds(x: real, d: real)
    requires d > 0.0 && -d <= x <= d
    ensures -1.0 <= x / d <= 1.0
    ensures x > 0.0 ==> x / d > 0.0
    ensures x < 0.0 ==> x / d < 0.0
  {
    assert x / d * d == x;
  }

  /** The saturation of a colour whose channels differ, from its largest and smallest level. */
  function Saturation(max: real, min: real): (s: real)
    requires 0.0 <= min < max <= 1.0
    ensures 0.0 < s <= 1.0
  {
    var d := max - min;
    if (max + min) / 2.0 > 0.5 then
      DivBounds(d, 2.0 - max - min);
      d / (2.0 - max - min)
    else
      DivBounds(d, max + min);
      d / (max + min)
  }

  /** The hue, as a fraction of a turn, of a colour whose channels differ. It comes from the
      channel that is largest, the red channel winning ties, then the green. */
  function Hue(r: real, g: real, b: real): (h: real)
    requires 0.0 <= r <= 1.0 && 0.0 <= g <= 1.0 && 0.0 <= b <= 1.0
    requires Max3(r, g, b) != Min3(r, g, b)
    ensures 0.0 <= h < 1.0
  {
    var max := Max3(r, g, b);
    var d := max - Min3(r, g, b);
    if max == r then
      DivBounds(g - b, d);
      ((g - b) / d + (if g < b then 6.0 else 0.0)) / 6.0
    else if max == g then
      DivBounds(b - r, d);
      ((b - r) / d + 2.0) / 6.0
    else
      DivBounds(r - g, d);
      ((r - g) / d + 4.0) / 6.0
  }

  /** The RGB to HSL conversion for channel levels in [0, 1]. */
  function RgbToHsl(r: real, g: real, b: real): (c: Hsl)
    requires 0.0 <= r <= 1.0 && 0.0 <= g <= 1.0 && 0.0 <= b <= 1.0
    ensures 0.0 <= c.hue < 1.0
    ensures 0.0 <= c.saturation <= 1.0
    ensures 0.0 <= c.lightness <= 1.0
    ensures c.saturation == 0.0 <==> r == g == b
    ensures r == g == b ==> c.hue == 0.0
  {
    var max := Max3(r, g, b);
    var min := Min3(r, g, b);
    var l := (max + min) / 2.0;
    if max == min then Hsl(0.0, 0.0, l) else Hsl(Hue(r, g, b), Saturation(max, min), l)
  }

  /** The lightness is the midpoint of the largest and the smallest channel level. */
  lemma RgbToHslLightness(r: real, g: real, b: real)
    requires 0.0 <= r <= 1.0 && 0.0 <= g <= 1.0 && 0.0 <= b <= 1.0
    ensures RgbToHsl(r, g, b).lightness == (Max3(r, g, b) + Min3(r, g, b)) / 2.0
  {
  }

  /** `Math.round`: the nearest integer, halves rounded up. */
  function Round(x: real): int
  {
    (x + 0.5).Floor
  }

  lemma RoundBounds(x: real, k: int)
    requires 0.0 <= x <= k as real
    ensures 0 <= Round(x) <= k
  {
  }

  /** The three numbers `hexToHsl` prints for a colour: hue in whole degrees, saturation and
      lightness in whole percent. */
  function HslNumbers(c: Rgb): (t: (nat, nat, nat))
    requires IsByteTriple(c)
    ensures t.0 <= 360 && t.1 <= 100 && t.2 <= 100
  {
    var hsl := RgbToHsl(c.red as real / 255.0, c.green as real / 255.0, c.blue as real / 255.0);
    RoundBounds(hsl.hue * 360.0, 360);
    RoundBounds(hsl.saturation * 100.0, 100);
    RoundBounds(hsl.lightness * 100.0, 100);
    (Round(hsl.hue * 360.0), Round(hsl.saturation * 100.0), Round(hsl.lightness * 100.0))
  }

  /** The text "H S% L%". */
  function FormatHsl(t: (nat, nat, nat)): string
  {
    Text.NatToString(t.0) + " " + Text.NatToString(t.1) + "% " + Text.NatToString(t.2) + "%"
  }

  const Fallback: string := "0 0% 0%"

  function HexToHsl(hex: string): (r: string)
    ensures !MatchesHexPattern(hex) ==> r == Fallback
  {
    match ParseHex(hex)
    case None => Fallback
    case Some(c) => FormatHsl(HslNumbers(c))
  }

  /** The output for a well-formed input is the rendering of three numbers in range. */
  lemma HexToHslInRange(hex: string)
    requires MatchesHexPattern(hex)
    ensures exists h: nat, s: nat, l: nat :: h <= 360 && s <= 100 && l <= 100
              && HexToHsl(hex) == FormatHsl((h, s, l))
  {
    var t := HslNumbers(ParseHex(hex).value);
    assert HexToHsl(hex) == FormatHsl((t.0, t.1, t.2));
  }

  /** `hexToHsl` does not care about letter case or a leading `#`. */
  lemma HexToHslCaseAndHash(s: string, t: string)
    requires Text.Lower(s) == Text.Lower(t)
    ensures HexToHsl(s) == HexToHsl(t)
    ensures s == [] || s[0] != '#' ==> HexToHsl("#" + s) == HexToHsl(s)
  {
    ParseHexCaseInsensitive(s, t);
    if s == [] || s[0] != '#' {
      ParseHexOptionalHash(s);
    }
  }

  /** A grey (all channels equal to `v`) has hue 0 and saturation 0, and its lightness is the
      channel level in percent. */
  lemma HexToHslGrey(hex: string, v: nat)
    requires ParseHex(hex) == Some(Rgb(v, v, v))
    ensures HexToHsl(hex) == FormatHsl((0, 0, Round(v as real / 255.0 * 100.0)))
  {
  }

  /** Pure black renders exactly like the fallback. */
  lemma HexToHslBlack()
    ensures HexToHsl("#000000") == "0 0% 0%"
  {
    assert ParseHex("#000000") == Some(Rgb(0, 0, 0)) by {
      assert AllHexDigits("#000000"[1..]);
    }
    HexToHslGrey("#000000", 0);
    assert Round(0 as real / 255.0 * 100.0) == 0;
    FormatBlack();
  }

  lemma FormatBlack()
    ensures FormatHsl((0, 0, 0)) == "0 0% 0%"
  {
    assert Text.NatToString(0) == "0";
  }

  /** Pure white has full lightness. */
  lemma HexToHslWhite()
    ensures HexToHsl("#ffffff") == "0 0% 100%"
  {
    assert ParseHex("#ffffff") == Some(Rgb(255, 255, 255)) by {
      assert AllHexDigits("#ffffff"[1..]);
    }
    HexToHslGrey("#ffffff", 255);
    assert Round(255 as real / 255.0 * 100.0) == 100;
    FormatFullLightness();
  }

  lemma FormatFullLightness()
    ensures FormatHsl((0, 0, 100)) == "0 0% 100%"
  {
    assert Text.NatToString(10) == "10";
    assert Text.NatToString(100) == "100";
  }

  /** An input that is not a colour falls back; the three spellings of one colour agree. */
  lemma HexToHslExamples()
    ensures HexToHsl("#zzzzzz") == "0 0% 0%"
    ensures HexToHsl("#d4a533") == HexToHsl("#D4A533") == HexToHsl("d4a533")
  {
    assert !IsHexDigit("#zzzzzz"[1..][0]);
    assert Text.Lower("#D4A533") == "#d4a533";
    HexToHslCaseAndHash("#d4a533", "#D4A533");
    HexToHslCaseAndHash("d4a533", "d4a533");
  }
}
