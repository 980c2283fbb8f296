/** The colour themes, their lookup, and the brand shades derived from a
    theme's primary colour channel by channel. */
module Themes {
  import opened Strings
  import opened Storage

  datatype Rgb = Rgb(r: int, g: int, b: int)

  datatype Theme = Theme(id: string, name: string, primary: Rgb, secondary: Rgb, accent: Rgb)

  const DefaultTheme: Theme :=
    Theme("turquoise", "themes.turquoise", Rgb(13, 148, 136), Rgb(6, 182, 212), Rgb(249, 115, 22))

  const Themes: seq<Theme> := [
    DefaultTheme,
    Theme("emerald", "themes.emerald", Rgb(5, 150, 105), Rgb(34, 197, 94), Rgb(251, 191, 36)),
    Theme("blue", "themes.blue", Rgb(37, 99, 235), Rgb(59, 130, 246), Rgb(168, 85, 247)),
    Theme("purple", "themes.purple", Rgb(147, 51, 234), Rgb(168, 85, 247), Rgb(236, 72, 153)),
    Theme("rose", "themes.rose", Rgb(225, 29, 72), Rgb(244, 63, 94), Rgb(251, 113, 133))
  ]

  /** `themes.find(theme => theme.id === id)`, as the index of the first match. */
  function FindTheme(table: seq<Theme>, id: string): (r: int)
    ensures -1 <= r < |table|
    ensures r >= 0 ==> table[r].id == id && forall j :: 0 <= j < r ==> table[j].id != id
    ensures r == -1 ==> forall j :: 0 <= j < |table| ==> table[j].id != id
  {
    if |table| == 0 then -1
    else if table[0].id == id then 0
    else
      var rest := FindTheme(table[1..], id);
      if rest == -1 then -1 else rest + 1
  }

  /** The theme with that id, else the first (turquoise) one. */
  function GetThemeById(id: string): (t: Theme)
    ensures t in Themes
    ensures (exists i :: 0 <= i < |Themes| && Themes[i].id == id) ==> t.id == id
    ensures (forall i :: 0 <= i < |Themes| ==> Themes[i].id != id) ==> t == Themes[0]
  {
    var i := FindTheme(Themes, id);
    if i >= 0 then Themes[i] else Themes[0]
  }

  /** Ids are unique, so each theme is found by its own id, and the store's
      default theme id names the first theme. */
  lemma ThemeIdsUnique()
    ensures forall i, j :: 0 <= i < j < |Themes| ==> Themes[i].id != Themes[j].id
    ensures forall i :: 0 <= i < |Themes| ==> GetThemeById(Themes[i].id) == Themes[i]
    ensures GetThemeById(DefaultSettings.themeId) == Themes[0] == DefaultTheme
  {
    forall i | 0 <= i < |Themes|
      ensures GetThemeById(Themes[i].id) == Themes[i]
    {
      var k := FindTheme(Themes, Themes[i].id);
      assert k >= 0;
    }
  }

  datatype Shade = S50 | S100 | S200 | S300 | S700 | S800 | S900 | S950

  /** `Math.min(255, c + 200/150/100/50)` for the lighter shades,
      `Math.max(0, c - 30/60/90/120)` for the darker ones. */
  function ShadeChannel(c: int, shade: Shade): (v: int)
    ensures shade in {S50, S100, S200, S300} ==> v <= 255 && (c <= 255 ==> v >= c)
    ensures shade in {S700, S800, S900, S950} ==> v >= 0 && (c >= 0 ==> v <= c)
  {
    match shade
    case S50 => Min(255, c + 200)
    case S100 => Min(255, c + 150)
    case S200 => Min(255, c + 100)
    case S300 => Min(255, c + 50)
    case S700 => Max(0, c - 30)
    case S800 => Max(0, c - 60)
    case S900 => Max(0, c - 90)
    case S950 => Max(0, c - 120)
  }

  function Min(a: int, b: int): int { if a <= b then a else b }
  function Max(a: int, b: int): int { if a >= b then a else b }

  predicate InRange(c: int) { 0 <= c <= 255 }

  function ShadeColor(color: Rgb, shade: Shade): (s: Rgb)
    ensures InRange(color.r) && InRange(color.g) && InRange(color.b) ==>
              InRange(s.r) && InRange(s.g) && InRange(s.b)
  {
    Rgb(ShadeChannel(color.r, shade), ShadeChannel(color.g, shade), ShadeChannel(color.b, shade))
  }

  /** Lightest first: 50, 100, 200, 300, then the darker ones. */
  function Lightness(shade: Shade): nat
  {
    match shade
    case S50 => 0
    case S100 => 1
    case S200 => 2
    case S300 => 3
    case S700 => 5
    case S800 => 6
    case S900 => 7
    case S950 => 8
  }

  /** Per channel, a lighter shade is never darker: 50 >= 100 >= 200 >= 300 >=
      the base >= 700 >= 800 >= 900 >= 950. */
  lemma ShadesOrdered(c: int, a: Shade, b: Shade)
    requires InRange(c)
    requires Lightness(a) <= Lightness(b)
    ensures ShadeChannel(c, a) >= ShadeChannel(c, b)
    ensures Lightness(a) < 4 ==> ShadeChannel(c, a) >= c
    ensures Lightness(b) > 4 ==> ShadeChannel(c, b) <= c
  {
  }

  /** "rgb(r g b)", the form the table and the shades are written in. */
  function RgbText(color: Rgb): string
  {
    "rgb(" + IntToString(color.r) + " " + IntToString(color.g) + " " + IntToString(color.b) + ")"
  }

  function ShadeName(shade: Shade): string
  {
    match shade
    case S50 => "--color-brand-50"
    case S100 => "--color-brand-100"
    case S200 => "--color-brand-200"
    case S300 => "--color-brand-300"
    case S700 => "--color-brand-700"
    case S800 => "--color-brand-800"
    case S900 => "--color-brand-900"
    case S950 => "--color-brand-950"
  }

  /** The derived shades in the order `applyTheme` writes them, lightest first. */
  const BrandShades: seq<Shade> := [S50, S100, S200, S300, S700, S800, S900, S950]

  /** The custom properties `applyTheme` writes, in order, as name and value. */
  function ThemeProperties(theme: Theme): (props: seq<(string, string)>)
    ensures |props| == 11
    ensures props[0] == ("--color-brand-600", RgbText(theme.primary))
    ensures props[1] == ("--color-brand-500", RgbText(theme.secondary))
    ensures props[2] == ("--color-brand-400", RgbText(theme.accent))
    ensures forall k :: 0 <= k < |BrandShades| ==>
              props[3 + k] == (ShadeName(BrandShades[k]), RgbText(ShadeColor(theme.primary, BrandShades[k])))
  {
    var shades := BrandShades;
    [("--color-brand-600", RgbText(theme.primary)),
     ("--color-brand-500", RgbText(theme.secondary)),
     ("--color-brand-400", RgbText(theme.accent))]
    + seq(8, i requires 0 <= i < 8 => (ShadeName(shades[i]), RgbText(ShadeColor(theme.primary, shades[i]))))
  }

  lemma ShadeExamples()
    ensures ShadeColor(DefaultTheme.primary, S50) == Rgb(213, 255, 255)
    ensures ShadeColor(DefaultTheme.primary, S950) == Rgb(0, 28, 16)
  {
  }
}
