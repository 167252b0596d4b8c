// Wall shading shared by the two games: the district colour of a building
// cell (getWallColorByArea), the deterministic window flag of the
// Halloween copy and the random one of the older copy, and adjustBrightness,
// which reads a CSS `#rrggbb` colour (CSS Color Module Level 4, section 5.2)
// and writes the legacy comma form `rgb(R, G, B)` (section 5.1).
module Walls {
  import opened Grid

  // ---------------------------------------------------------------------
  // Districts
  // ---------------------------------------------------------------------

  predicate InHauntedHouse(x: int, y: int) { 1 <= y <= 8 && 1 <= x <= 8 }
  predicate InWitchForest(x: int, y: int) { 1 <= y <= 8 && 17 <= x <= 23 }
  predicate InGraveyard(x: int, y: int) { 16 <= y <= 23 && 1 <= x <= 8 }
  predicate InPumpkinField(x: int, y: int) { 18 <= y <= 23 && 8 <= x <= 23 }

  /** The district colours, in the order the regions are checked. */
  const HAUNTED_HOUSE: string := "#2a1a4a"
  const WITCH_FOREST: string := "#1a3a1a"
  const GRAVEYARD: string := "#4a4a4a"
  const PUMPKIN_FIELD: string := "#5a3010"
  const TOWN: string := "#3a1f0f"

  /** The colour of the first region, in the fixed order haunted house,
      witch forest, graveyard, pumpkin field, that contains the cell; the
      town colour when none does. */
  function GetWallColorByArea(cellX: int, cellY: int): (colour: string)
    ensures colour == HAUNTED_HOUSE <==> InHauntedHouse(cellX, cellY)
    ensures colour == WITCH_FOREST <==> !InHauntedHouse(cellX, cellY) && InWitchForest(cellX, cellY)
    ensures colour == GRAVEYARD <==>
              !InHauntedHouse(cellX, cellY) && !InWitchForest(cellX, cellY) && InGraveyard(cellX, cellY)
    ensures colour == PUMPKIN_FIELD <==>
              !InHauntedHouse(cellX, cellY) && !InWitchForest(cellX, cellY) &&
              !InGraveyard(cellX, cellY) && InPumpkinField(cellX, cellY)
    ensures colour == TOWN <==>
              !InHauntedHouse(cellX, cellY) && !InWitchForest(cellX, cellY) &&
              !InGraveyard(cellX, cellY) && !InPumpkinField(cellX, cellY)
  {
    if InHauntedHouse(cellX, cellY) then HAUNTED_HOUSE
    else if InWitchForest(cellX, cellY) then WITCH_FOREST
    else if InGraveyard(cellX, cellY) then GRAVEYARD
    else if InPumpkinField(cellX, cellY) then PUMPKIN_FIELD
    else TOWN
  }

  /** The graveyard and the pumpkin field share the cells x = 8,
      18 <= y <= 23; the graveyard is checked first and wins them. */
  lemma GraveyardWinsOverlap(y: int)
    requires 18 <= y <= 23
    ensures InGraveyard(8, y) && InPumpkinField(8, y)
    ensures GetWallColorByArea(8, y) == GRAVEYARD
  {
  }

  /** Every district colour is a well-formed `#rrggbb` colour. */
  lemma WallColoursParse(cellX: int, cellY: int)
    ensures ParseHexColor(GetWallColorByArea(cellX, cellY)).Some?
  {
    var c := GetWallColorByArea(cellX, cellY);
    assert c[1..3] == c[1..][0..2] && c[3..5] == c[1..][2..4] && c[5..7] == c[1..][4..6];
    assert HexPair(c[1..][0..2]).Some?;
    assert HexPair(c[1..][2..4]).Some?;
    assert HexPair(c[1..][4..6]).Some?;
  }

  // ---------------------------------------------------------------------
  // Windows
  // ---------------------------------------------------------------------

  /** JavaScript's `%`, whose remainder takes the sign of the dividend. */
  function JsRem(a: int, m: int): (r: int)
    requires m > 0
    ensures -m < r < m
    ensures a >= 0 ==> r == a % m
    ensures a < 0 ==> r <= 0
    ensures (a - r) % m == 0
  {
    if a >= 0 then
      assert a == (a / m) * m + a % m;
      DivUnique(a - a % m, m, a / m, 0);
      a % m
    else
      var q := (-a) / m;
      assert -a == q * m + (-a) % m;
      assert a + (-a) % m == (-q) * m + 0;
      DivUnique(a + (-a) % m, m, -q, 0);
      -((-a) % m)
  }

  /** `((cellX * 7 + cellY * 13) % 5) === 0`: a fixed property of the cell. */
  predicate HasWindow(cellX: int, cellY: int)
  {
    JsRem(cellX * 7 + cellY * 13, 5) == 0
  }

  /** How many windows the Halloween renderObject paints on a slice. */
  function HalloweenWindows(cellX: int, cellY: int, distance: real, height: real): (n: nat)
    ensures n <= 2
    ensures n > 0 <==> HasWindow(cellX, cellY) && distance < 10.0 && height > 40.0
    ensures n == 2 <==> n > 0 && height > 80.0 && JsRem(cellX + cellY, 3) == 0
  {
    if HasWindow(cellX, cellY) && distance < 10.0 && height > 40.0 then
      (if height > 80.0 && JsRem(cellX + cellY, 3) == 0 then 2 else 1)
    else 0
  }

  /** The window flag repeats every five cells along a row and along a
      column, so one window in five cells of a facade is lit. */
  lemma WindowPattern(cellX: nat, cellY: nat)
    ensures HasWindow(cellX, cellY) <==> (2 * cellX + 3 * cellY) % 5 == 0
    ensures HasWindow(cellX + 5, cellY) == HasWindow(cellX, cellY)
    ensures HasWindow(cellX, cellY + 5) == HasWindow(cellX, cellY)
  {
    var a := cellX * 7 + cellY * 13;
    var t := 2 * cellX + 3 * cellY;
    assert t == (t / 5) * 5 + t % 5;
    assert a == (cellX + 2 * cellY + t / 5) * 5 + t % 5;
    DivUnique(a, 5, cellX + 2 * cellY + t / 5, t % 5);
    assert a == (a / 5) * 5 + a % 5;
    assert (cellX + 5) * 7 + cellY * 13 == (a / 5 + 7) * 5 + a % 5;
    DivUnique((cellX + 5) * 7 + cellY * 13, 5, a / 5 + 7, a % 5);
    assert cellX * 7 + (cellY + 5) * 13 == (a / 5 + 13) * 5 + a % 5;
    DivUnique(cellX * 7 + (cellY + 5) * 13, 5, a / 5 + 13, a % 5);
  }

  /** The pane size of the Halloween windows. */
  function HalloweenWindowSize(height: real): (s: real)
    ensures s <= 10.0 && s <= height * 0.15
    ensures s == 10.0 || s == height * 0.15
  {
    MinReal(height * 0.15, 10.0)
  }

  /** The older game's windows: `r1` and `r2` are the two Math.random()
      draws, the second made only when the first window is painted. */
  function RootWindows(r1: real, r2: real, distance: real, height: real): (n: nat)
    ensures n <= 2
    ensures n > 0 <==> r1 > 0.995 && distance < 10.0 && height > 50.0
    ensures n == 2 <==> n > 0 && height > 100.0 && r2 > 0.5
  {
    if r1 > 0.995 && distance < 10.0 && height > 50.0 then
      (if height > 100.0 && r2 > 0.5 then 2 else 1)
    else 0
  }

  function RootWindowSize(height: real): (s: real)
    ensures s <= 8.0 && s <= height * 0.12
    ensures s == 8.0 || s == height * 0.12
  {
    MinReal(height * 0.12, 8.0)
  }

  // ---------------------------------------------------------------------
  // Colours
  // ---------------------------------------------------------------------

  datatype Rgb = Rgb(r: int, g: int, b: int)

  predicate IsByte(n: int) { 0 <= n < 256 }

  predicate ByteRgb(c: Rgb) { IsByte(c.r) && IsByte(c.g) && IsByte(c.b) }

  /** The lower-case hexadecimal digit of 0..15. */
  function HexDigit(d: int): char
    requires 0 <= d < 16
  {
    if d < 10 then ('0' as int + d) as char else ('a' as int + d - 10) as char
  }

  /** The value of one hexadecimal digit, either case. */
  function HexValue(ch: char): (v: Option<nat>)
    ensures v.Some? ==> v.value < 16
  {
    if '0' <= ch <= '9' then Some((ch - '0') as nat)
    else if 'a' <= ch <= 'f' then Some((ch - 'a') as nat + 10)
    else if 'A' <= ch <= 'F' then Some((ch - 'A') as nat + 10)
    else None
  }

  /** `parseInt(s, 16)` of a two-digit string of hex digits. */
  function HexPair(s: string): (v: Option<nat>)
    ensures v.Some? ==> IsByte(v.value)
  {
    if |s| == 2 && HexValue(s[0]).Some? && HexValue(s[1]).Some? then
      Some(HexValue(s[0]).value * 16 + HexValue(s[1]).value)
    else None
  }

  /** `String.prototype.replace('#', '')`: drops the first '#' only. */
  function DropFirstHash(s: string): (t: string)
    ensures '#' in s ==> |t| == |s| - 1
    ensures '#' !in s ==> t == s
  {
    if |s| == 0 then s
    else if s[0] == '#' then s[1..]
    else [s[0]] + DropFirstHash(s[1..])
  }

  /** The colour read from a CSS hexadecimal colour; None when any of the
      first six characters after the '#' is not a hex digit (where the
      source would compute NaN or parse a shorter prefix). */
  function ParseHexColor(color: string): (c: Option<Rgb>)
    ensures c.Some? ==> ByteRgb(c.value)
  {
    var hex := DropFirstHash(color);
    if |hex| < 6 then None
    else
      var r, g, b := HexPair(hex[0..2]), HexPair(hex[2..4]), HexPair(hex[4..6]);
      if r.Some? && g.Some? && b.Some? then Some(Rgb(r.value, g.value, b.value)) else None
  }

  /** The lower-case `#rrggbb` spelling of a colour. */
  function HexColor(c: Rgb): (s: string)
    requires ByteRgb(c)
    ensures |s| == 7 && s[0] == '#'
  {
    "#" + [HexDigit(c.r / 16), HexDigit(c.r % 16), HexDigit(c.g / 16), HexDigit(c.g % 16), HexDigit(c.b / 16), HexDigit(c.b % 16)]
  }

  lemma HexPairOf(n: int)
    requires IsByte(n)
    ensures HexPair([HexDigit(n / 16), HexDigit(n % 16)]) == Some(n)
  {
    assert HexValue(HexDigit(n / 16)) == Some(n / 16);
    assert HexValue(HexDigit(n % 16)) == Some(n % 16);
  }

  /** Writing a colour as `#rrggbb` and reading it back gives the colour. */
  lemma HexColorRoundTrip(c: Rgb)
    requires ByteRgb(c)
    ensures ParseHexColor(HexColor(c)) == Some(c)
  {
    var s := HexColor(c);
    assert DropFirstHash(s) == s[1..];
    var hex := s[1..];
    assert hex[0..2] == [HexDigit(c.r / 16), HexDigit(c.r % 16)];
    assert hex[2..4] == [HexDigit(c.g / 16), HexDigit(c.g % 16)];
    assert hex[4..6] == [HexDigit(c.b / 16), HexDigit(c.b % 16)];
    HexPairOf(c.r);
    HexPairOf(c.g);
    HexPairOf(c.b);
  }

  /** `Math.floor(component * brightness)`: no clamping to 0..255. */
  function Scale(component: int, brightness: real): int
  {
    (component as real * brightness).Floor
  }

  lemma MulNonNegative(x: real, y: real)
    requires x >= 0.0 && y >= 0.0
    ensures x * y >= 0.0
  {
  }

  /** A brightness in [0, 1] dims a byte channel and keeps it a byte; a
      larger brightness never dims it. */
  lemma ScaleBounds(component: int, brightness: real)
    requires IsByte(component)
    ensures 0.0 <= brightness <= 1.0 ==> 0 <= Scale(component, brightness) <= component
    ensures brightness >= 1.0 ==> Scale(component, brightness) >= component
  {
    var p := component as real * brightness;
    if 0.0 <= brightness <= 1.0 {
      var c := component as real;
      MulNonNegative(c, brightness);
      MulNonNegative(c, 1.0 - brightness);
      assert p == c - c * (1.0 - brightness);
      assert 0.0 <= p <= c;
    }
    if brightness >= 1.0 {
      var c := component as real;
      MulNonNegative(c, brightness - 1.0);
      assert p == c + c * (brightness - 1.0);
    }
  }

  // Decimal formatting, as a template literal writes an integer.

  function DigitChar(d: int): char
    requires 0 <= d < 10
  {
    "0123456789"[d]
  }

  function NatDigits(n: nat): (s: string)
    ensures |s| > 0
    decreases n
  {
    if n < 10 then [DigitChar(n)] else NatDigits(n / 10) + [DigitChar(n % 10)]
  }

  function Decimal(n: int): string
  {
    if n < 0 then "-" + NatDigits(-n) else NatDigits(n)
  }

  /** The value of a string of decimal digits, most significant first. */
  function DigitsValue(s: string): int
  {
    if |s| == 0 then 0
    else DigitsValue(s[..|s| - 1]) * 10 + (s[|s| - 1] as int - '0' as int)
  }

  /** Reading back the digits of a natural number gives the number. */
  lemma {:induction false} NatDigitsRoundTrip(n: nat)
    ensures DigitsValue(NatDigits(n)) == n
    ensures forall i :: 0 <= i < |NatDigits(n)| ==> '0' <= NatDigits(n)[i] <= '9'
    decreases n
  {
    if n >= 10 {
      NatDigitsRoundTrip(n / 10);
      var s := NatDigits(n);
      assert s[..|s| - 1] == NatDigits(n / 10);
    }
  }

  /** The legacy comma form `rgb(R, G, B)`. */
  function RgbString(c: Rgb): string
  {
    "rgb(" + Decimal(c.r) + ", " + Decimal(c.g) + ", " + Decimal(c.b) + ")"
  }

  /** adjustBrightness: each channel of a `#rrggbb` colour scaled by
      `brightness` and floored, written as `rgb(R, G, B)`. */
  function AdjustBrightness(color: string, brightness: real): (s: Option<string>)
    ensures s.Some? <==> ParseHexColor(color).Some?
    ensures s.Some? ==>
              var c := ParseHexColor(color).value;
              s.value == RgbString(Rgb(Scale(c.r, brightness), Scale(c.g, brightness), Scale(c.b, brightness)))
  {
    match ParseHexColor(color)
    case None => None
    case Some(c) => Some(RgbString(Rgb(Scale(c.r, brightness), Scale(c.g, brightness), Scale(c.b, brightness))))
  }

  /** A brightness in [0, 1] applied to any parsed colour yields a colour
      whose every channel is a byte no brighter than the original. */
  lemma AdjustBrightnessDims(color: string, brightness: real)
    requires ParseHexColor(color).Some? && 0.0 <= brightness <= 1.0
    ensures var c := ParseHexColor(color).value;
            var d := Rgb(Scale(c.r, brightness), Scale(c.g, brightness), Scale(c.b, brightness));
            ByteRgb(d) && d.r <= c.r && d.g <= c.g && d.b <= c.b
  {
    var c := ParseHexColor(color).value;
    ScaleBounds(c.r, brightness);
    ScaleBounds(c.g, brightness);
    ScaleBounds(c.b, brightness);
  }

  /** At full brightness a lower-case hex colour comes back unchanged,
      channel for channel. */
  lemma FullBrightnessKeepsColour(c: Rgb)
    requires ByteRgb(c)
    ensures AdjustBrightness(HexColor(c), 1.0) == Some(RgbString(c))
  {
    HexColorRoundTrip(c);
  }

  /** The lit window of the older renderer at full brightness: 1.5 times
      `#ffcc00` is not clamped and leaves the byte range. */
  lemma WindowLightOverflows()
    ensures AdjustBrightness("#ffcc00", 1.5) == Some("rgb(382, 306, 0)")
  {
    var hex := DropFirstHash("#ffcc00");
    assert hex == "ffcc00";
    assert HexPair(hex[0..2]) == Some(255);
    assert HexPair(hex[2..4]) == Some(204);
    assert HexPair(hex[4..6]) == Some(0);
    assert ParseHexColor("#ffcc00") == Some(Rgb(255, 204, 0));
    assert Scale(255, 1.5) == 382 && Scale(204, 1.5) == 306 && Scale(0, 1.5) == 0;
    assert NatDigits(38) == NatDigits(3) + [DigitChar(8)] == "38";
    assert NatDigits(382) == NatDigits(38) + [DigitChar(2)] == "382";
    assert NatDigits(30) == NatDigits(3) + [DigitChar(0)] == "30";
    assert NatDigits(306) == NatDigits(30) + [DigitChar(6)] == "306";
    assert Decimal(0) == "0";
    assert RgbString(Rgb(382, 306, 0)) == "rgb(382, 306, 0)";
  }
}
