/** What `applyGlobalStyles` and `applyBrandingSettings` write, as a pure
    function of the settings record and the platform's dark-mode preference
    (src/contexts/SettingsContext.js). The writes themselves (style
    properties, classes, the title and meta tags) are left to the boundary. */
module GlobalStyles {
  import opened Js
  import opened Strings
  import opened SettingsContext

  /** `String(v)` where `v` may be `undefined` (`None`). */
  function JsString(v: Option<Json>): string {
    if v.None? then "undefined" else ToStr(v.value)
  }

  /** What `style.setProperty(name, v)` stores: `null` becomes the empty
      string (which removes the property) and `undefined` the text "undefined". */
  function CssValue(v: Option<Json>): string {
    if v == Some(JNull) then "" else JsString(v)
  }

  /** A table lookup written with `setProperty`: a missing entry is `undefined`. */
  function CssOf(v: Option<string>): string {
    if v.None? then "undefined" else v.value
  }

  // ---------------------------------------------------------------- theme

  /** `getThemeMode()`: `"auto"` resolves against the platform preference;
      any other value is used as it is. */
  function EffectiveTheme(themeMode: Option<Json>, systemDark: bool): (t: Option<Json>)
    ensures t == Some(JStr("dark")) <==>
              themeMode == Some(JStr("dark")) || (themeMode == Some(JStr("auto")) && systemDark)
    ensures themeMode != Some(JStr("auto")) ==> t == themeMode
    ensures themeMode == Some(JStr("auto")) ==> t == Some(JStr("light")) || t == Some(JStr("dark"))
  {
    if themeMode == Some(JStr("auto")) then Some(JStr(if systemDark then "dark" else "light"))
    else themeMode
  }

  /** `currentTheme === "dark"`. */
  predicate IsDark(theme: Option<Json>) {
    theme == Some(JStr("dark"))
  }

  predicate IsAsciiWhitespace(c: char) {
    c == ' ' || c == '\t' || c == '\n' || c == '\U{000C}' || c == '\r'
  }

  /** `classList.add(token)` throws for the empty token and for one holding ASCII whitespace. */
  predicate ValidClassToken(token: string) {
    token != "" && forall i :: 0 <= i < |token| ==> !IsAsciiWhitespace(token[i])
  }

  // ---------------------------------------------------------------- hexToRgb

  datatype Rgb = Rgb(r: nat, g: nat, b: nat)

  predicate IsHexDigit(c: char) {
    '0' <= c <= '9' || 'a' <= c <= 'f' || 'A' <= c <= 'F'
  }

  function HexDigitValue(c: char): (v: nat)
    requires IsHexDigit(c)
    ensures v < 16
  {
    if '0' <= c <= '9' then c as int - '0' as int
    else if 'a' <= c <= 'f' then c as int - 'a' as int + 10
    else c as int - 'A' as int + 10
  }

  function LowerHexDigit(v: nat): (c: char)
    requires v < 16
    ensures IsHexDigit(c) && HexDigitValue(c) == v
    ensures '0' <= c <= '9' || 'a' <= c <= 'f'
  {
    if v < 10 then (v + '0' as int) as char else (v - 10 + 'a' as int) as char
  }

  /** The six digits the pattern `^#?([a-f\d]{2})([a-f\d]{2})([a-f\d]{2})$/i`
      captures: an optional `#`, then exactly six hexadecimal digits in either case. */
  function HexDigitsOf(hex: string): (d: Option<string>)
    ensures d.Some? ==> |d.value| == 6 && forall i :: 0 <= i < 6 ==> IsHexDigit(d.value[i])
    ensures d.Some? <==>
      (|hex| == 6 && forall i :: 0 <= i < 6 ==> IsHexDigit(hex[i])) ||
      (|hex| == 7 && hex[0] == '#' && forall i :: 1 <= i < 7 ==> IsHexDigit(hex[i]))
    ensures d.Some? ==> hex == d.value || hex == "#" + d.value
  {
    var body := if |hex| == 7 && hex[0] == '#' then hex[1..] else hex;
    if |body| == 6 && forall i :: 0 <= i < 6 ==> IsHexDigit(body[i]) then Some(body) else None
  }

  /** `hexToRgb(hex)`: each pair of digits read in base 16, or `null` (`None`). */
  function HexToRgb(hex: string): (c: Option<Rgb>)
    ensures c.Some? <==> HexDigitsOf(hex).Some?
    ensures c.Some? ==> c.value.r < 256 && c.value.g < 256 && c.value.b < 256
  {
    match HexDigitsOf(hex)
    case None => None
    case Some(d) => Some(Rgb(
      HexDigitValue(d[0]) * 16 + HexDigitValue(d[1]),
      HexDigitValue(d[2]) * 16 + HexDigitValue(d[3]),
      HexDigitValue(d[4]) * 16 + HexDigitValue(d[5])))
  }

  /** Two lower-case hexadecimal digits for a component. */
  function HexByte(v: nat): (d: string)
    requires v < 256
    ensures |d| == 2 && IsHexDigit(d[0]) && IsHexDigit(d[1])
    ensures HexDigitValue(d[0]) * 16 + HexDigitValue(d[1]) == v
  {
    [LowerHexDigit(v / 16), LowerHexDigit(v % 16)]
  }

  /** A colour written as `#rrggbb` with lower-case digits. */
  function RgbToHex(c: Rgb): (h: string)
    requires c.r < 256 && c.g < 256 && c.b < 256
    ensures |h| == 7 && h[0] == '#'
  {
    "#" + (HexByte(c.r) + HexByte(c.g) + HexByte(c.b))
  }

  /** Writing a colour as hex and reading it back gives the colour. */
  lemma HexRoundTrip(c: Rgb)
    requires c.r < 256 && c.g < 256 && c.b < 256
    ensures HexToRgb(RgbToHex(c)) == Some(c)
  {
    var h := RgbToHex(c);
    assert h[1..] == HexByte(c.r) + HexByte(c.g) + HexByte(c.b);
    assert HexDigitsOf(h) == Some(h[1..]);
  }

  /** Reading a colour and writing it back gives its digits in lower case
      behind a `#`, whether or not the input had one. */
  lemma HexNormalises(hex: string)
    requires HexToRgb(hex).Some?
    ensures RgbToHex(HexToRgb(hex).value) == "#" + ToLower(HexDigitsOf(hex).value)
  {
    var d := HexDigitsOf(hex).value;
    var c := HexToRgb(hex).value;
    HexByteOfDigits(d[0], d[1], c.r);
    HexByteOfDigits(d[2], d[3], c.g);
    HexByteOfDigits(d[4], d[5], c.b);
    LowerSix(d);
  }

  /** Lowering six characters, two at a time. */
  lemma LowerSix(d: string)
    requires |d| == 6
    ensures ToLower(d) == [LowerChar(d[0]), LowerChar(d[1])] + [LowerChar(d[2]), LowerChar(d[3])]
                          + [LowerChar(d[4]), LowerChar(d[5])]
  {
  }

  /** A pair of digits read and written again comes back in lower case. */
  lemma HexByteOfDigits(x: char, y: char, v: nat)
    requires IsHexDigit(x) && IsHexDigit(y)
    requires v == HexDigitValue(x) * 16 + HexDigitValue(y)
    ensures v < 256 && HexByte(v) == [LowerChar(x), LowerChar(y)]
  {
    assert v / 16 == HexDigitValue(x) && v % 16 == HexDigitValue(y);
    LowerHexDigitOf(x);
    LowerHexDigitOf(y);
  }

  lemma LowerHexDigitOf(x: char)
    requires IsHexDigit(x)
    ensures LowerHexDigit(HexDigitValue(x)) == LowerChar(x)
  {
  }

  // ---------------------------------------------------------------- colour variations

  function Rgba(c: Rgb, alpha: string): string {
    "rgba(" + NatToString(c.r) + ", " + NatToString(c.g) + ", " + NatToString(c.b) + ", " + alpha + ")"
  }

  /** The three colour settings a ladder is generated for. */
  datatype Palette = Primary | Secondary | Accent

  function PaletteName(p: Palette): string {
    match p
    case Primary => "primary"
    case Secondary => "secondary"
    case Accent => "accent"
  }

  /** A custom property: one named outright, or step `step` of a palette's
      ladder, whose name is `--<palette>-<step>`. */
  datatype CssVar = Var(name: string) | Shade(palette: Palette, step: nat)

  function PropertyName(v: CssVar): string {
    match v
    case Var(n) => n
    case Shade(p, step) => "--" + PaletteName(p) + "-" + NatToString(step)
  }

  /** The steps of a ladder. */
  const Steps: set<nat> := {50, 100, 200, 300, 400, 500, 600, 700, 800, 900}

  /** The ten steps of the ladder over colour `c`, whose step 500 is `base`. */
  function Ladder(p: Palette, c: Rgb, base: string): (r: map<CssVar, string>)
    ensures forall k :: k in r <==> k.Shade? && k.palette == p && k.step in Steps
  {
    map[
      Shade(p, 50) := Rgba(c, "0.05"),
      Shade(p, 100) := Rgba(c, "0.1"),
      Shade(p, 200) := Rgba(c, "0.2"),
      Shade(p, 300) := Rgba(c, "0.3"),
      Shade(p, 400) := Rgba(c, "0.6"),
      Shade(p, 500) := base,
      Shade(p, 600) := Rgba(c, "0.8"),
      Shade(p, 700) := Rgba(c, "0.9"),
      Shade(p, 800) := Rgba(c, "0.95"),
      Shade(p, 900) := Rgba(c, "1")]
  }

  /** The faintest step, the base step and the opaque step of a ladder. */
  lemma LadderEnds(p: Palette, c: Rgb, base: string)
    ensures var r := Ladder(p, c, base);
      && Shade(p, 50) in r && Shade(p, 500) in r && Shade(p, 900) in r
      && r[Shade(p, 50)] == Rgba(c, "0.05") && r[Shade(p, 500)] == base && r[Shade(p, 900)] == Rgba(c, "1")
  {
  }

  /** `generateColorVariations(base, prefix)`: nothing when the base is not a
      hex colour; otherwise the ten steps, translucent below step 500, the
      base itself at step 500 and more and more opaque above it. */
  function ColorVariations(base: Option<Json>, p: Palette): (r: map<CssVar, string>)
    ensures forall k :: k in r ==> k.Shade? && k.palette == p
  {
    match HexToRgb(JsString(base))
    case None => map[]
    case Some(c) => Ladder(p, c, CssValue(base))
  }

  /** The ladder is written exactly when the base is a hex colour. */
  lemma ColorVariationsWrittenIff(base: Option<Json>, p: Palette)
    ensures ColorVariations(base, p) == map[] <==> HexToRgb(JsString(base)).None?
  {
    if HexToRgb(JsString(base)).Some? {
      assert Shade(p, 50) in ColorVariations(base, p);
    }
  }

  /** A written ladder holds the ten steps of its palette, step 500 being the
      base as given, step 50 the faintest and step 900 the opaque colour. */
  lemma ColorVariationsSteps(base: Option<Json>, p: Palette, c: Rgb)
    requires HexToRgb(JsString(base)) == Some(c)
    ensures forall n: nat :: Shade(p, n) in ColorVariations(base, p) <==> n in Steps
    ensures ColorVariations(base, p)[Shade(p, 50)] == Rgba(c, "0.05")
    ensures ColorVariations(base, p)[Shade(p, 500)] == CssValue(base)
    ensures ColorVariations(base, p)[Shade(p, 900)] == Rgba(c, "1")
  {
    assert ColorVariations(base, p) == Ladder(p, c, CssValue(base));
    LadderEnds(p, c, CssValue(base));
  }

  /** Distinct ladder steps have distinct property names. */
  lemma ShadeNamesDistinct(u: CssVar, v: CssVar)
    requires u.Shade? && v.Shade? && u != v
    ensures PropertyName(u) != PropertyName(v)
  {
    var nu, nv := PaletteName(u.palette), PaletteName(v.palette);
    if u.palette != v.palette {
      assert PropertyName(u)[2] == nu[0] && PropertyName(v)[2] == nv[0];
    } else {
      assert PropertyName(u)[|nu| + 3..] == NatToString(u.step);
      assert PropertyName(v)[|nv| + 3..] == NatToString(v.step);
      if NatToString(u.step) == NatToString(v.step) {
        NatToStringInjective(u.step, v.step);
      }
    }
  }

  // ---------------------------------------------------------------- lookup tables

  /** `fontFamilies[key]`. */
  function FontFamilyNamed(key: string): Option<string> {
    match key
    case "inter" => Some("\"Inter\", sans-serif")
    case "poppins" => Some("\"Poppins\", sans-serif")
    case "roboto" => Some("\"Roboto\", sans-serif")
    case "playfair" => Some("\"Playfair Display\", serif")
    case "montserrat" => Some("\"Montserrat\", sans-serif")
    case _ => None
  }

  /** `containerWidths[key]`. */
  function ContainerWidthNamed(key: string): Option<string> {
    match key
    case "narrow" => Some("1024px")
    case "default" => Some("1280px")
    case "wide" => Some("1536px")
    case "full" => Some("100%")
    case _ => None
  }

  /** `speeds[key]`. */
  function SpeedNamed(key: string): Option<string> {
    match key
    case "slow" => Some("0.8s")
    case "normal" => Some("0.5s")
    case "fast" => Some("0.3s")
    case _ => None
  }

  /** `fontSizes[key]`. */
  function FontSizeNamed(key: string): Option<string> {
    match key
    case "small" => Some("0.875rem")
    case "normal" => Some("1rem")
    case "large" => Some("1.125rem")
    case _ => None
  }

  /** `lineHeights[key]`. */
  function LineHeightNamed(key: string): Option<string> {
    match key
    case "tight" => Some("1.25")
    case "normal" => Some("1.5")
    case "relaxed" => Some("1.75")
    case _ => None
  }

  /** The key a setting is looked up under in one of the tables: `String(value)`. */
  function KeyOf(s: Settings, name: string): string {
    JsString(Get(s, name))
  }

  // ---------------------------------------------------------------- the writes

  /** Everything one run of `applyGlobalStyles` writes. A root or body style
      whose value is the empty string is removed rather than set. */
  datatype StyleWrites = StyleWrites(
    themeClass: string,                // added to the body and written to its `data-theme`
    rootVars: map<CssVar, string>,     // custom properties on the document element
    bodyStyles: map<string, string>,   // inline styles on the body
    customCss: Option<string>,         // new text of the custom style element, if written
    highContrast: bool,                // the root carries `high-contrast`
    reducedMotion: bool,               // the root carries `reduced-motion`
    head: Branding)                    // document title, favicon and meta tags written

  /** `applyGlobalStyles` either completes, or stops when `classList.add`
      rejects the theme token, before any property is written. */
  datatype Styling = Applied(writes: StyleWrites) | ThemeClassRejected(token: string)

  /** The properties the colour scheme supplies. */
  const SchemeKeys: set<CssVar> := {
    Var("--text-color"), Var("--bg-color"), Var("--card-color"), Var("--border-color"),
    Var("--input-bg"), Var("--input-text"), Var("--glass-bg"), Var("--glass-border"),
    Var("--scrollbar-track"), Var("--scrollbar-thumb"), Var("--text-color-rgb")}

  /** The layout, motion, typography and visibility properties. */
  const LayoutKeys: set<CssVar> := {
    Var("--container-width"), Var("--animation-duration"), Var("--transition-duration"),
    Var("--font-size-base"), Var("--line-height-base"), Var("--particles-display"),
    Var("--gradients-opacity")}

  /** The properties written from the three colour settings outright. */
  const ColourKeys: set<CssVar> := {Var("--primary-color"), Var("--secondary-color"), Var("--accent-color")}

  /** The theme colours of a known scheme. */
  function SchemeVars(sc: ColorScheme, dark: bool, primary: Option<Json>): (r: map<CssVar, string>)
    ensures r.Keys <= SchemeKeys
    ensures Var("--text-color") in r && r[Var("--text-color")] == (if dark then sc.darkText else sc.lightText)
    ensures Var("--bg-color") in r && r[Var("--bg-color")] == (if dark then sc.darkBg else sc.lightBg)
    ensures Var("--card-color") in r && r[Var("--card-color")] == (if dark then sc.darkCard else sc.lightCard)
  {
    SchemeFixed(sc, dark, primary) + TextRgb(if dark then sc.darkText else sc.lightText)
  }

  /** The ten properties every known scheme writes. */
  function SchemeFixed(sc: ColorScheme, dark: bool, primary: Option<Json>): (r: map<CssVar, string>)
    ensures r.Keys <= SchemeKeys - {Var("--text-color-rgb")}
    ensures Var("--text-color") in r && r[Var("--text-color")] == (if dark then sc.darkText else sc.lightText)
    ensures Var("--bg-color") in r && r[Var("--bg-color")] == (if dark then sc.darkBg else sc.lightBg)
    ensures Var("--card-color") in r && r[Var("--card-color")] == (if dark then sc.darkCard else sc.lightCard)
  {
    map[
      Var("--text-color") := if dark then sc.darkText else sc.lightText,
      Var("--bg-color") := if dark then sc.darkBg else sc.lightBg,
      Var("--card-color") := if dark then sc.darkCard else sc.lightCard,
      Var("--border-color") := if dark then "#374151" else "#d1d5db",
      Var("--input-bg") := if dark then "#374151" else "#ffffff",
      Var("--input-text") := if dark then "#f3f4f6" else "#1f2937",
      Var("--glass-bg") := if dark then "rgba(255, 255, 255, 0.1)" else "rgba(255, 255, 255, 0.9)",
      Var("--glass-border") := if dark then "rgba(255, 255, 255, 0.2)" else "rgba(0, 0, 0, 0.1)",
      Var("--scrollbar-track") := if dark then "#1a1a1a" else "#f3f4f6",
      Var("--scrollbar-thumb") := CssValue(primary)]
  }

  /** The text colour's red, green and blue components, written only when
      the text colour is a hex colour. */
  function TextRgb(text: string): (r: map<CssVar, string>)
    ensures r.Keys <= {Var("--text-color-rgb")}
    ensures Var("--text-color-rgb") in r <==> HexToRgb(text).Some?
  {
    match HexToRgb(text)
    case None => map[]
    case Some(c) => map[Var("--text-color-rgb") := NatToString(c.r) + ", " + NatToString(c.g) + ", " + NatToString(c.b)]
  }

  /** The colour properties and their three ladders. */
  function ColourVars(s: Settings): (r: map<CssVar, string>)
    ensures forall k :: k in r ==> k.Shade? || k in ColourKeys
  {
    var primary := Get(s, "primaryColor");
    var secondary := Get(s, "secondaryColor");
    var accent := Get(s, "accentColor");
    map[
      Var("--primary-color") := CssValue(primary),
      Var("--secondary-color") := CssValue(secondary),
      Var("--accent-color") := CssValue(accent)]
    + ColorVariations(primary, Primary)
    + ColorVariations(secondary, Secondary)
    + ColorVariations(accent, Accent)
  }

  /** The scheme's part, written only when the scheme is known. */
  function SchemePart(s: Settings, dark: bool): (r: map<CssVar, string>)
    ensures r.Keys <= SchemeKeys
    ensures r == map[] <==> KeyOf(s, "colorScheme") !in SchemeNames
  {
    match ColorSchemeNamed(KeyOf(s, "colorScheme"))
    case None => map[]
    case Some(sc) => SchemeVars(sc, dark, Get(s, "primaryColor"))
  }

  /** The font family, when the setting names one of the table's fonts. */
  function FontPart(s: Settings): (r: map<CssVar, string>)
    ensures r.Keys <= {Var("--font-family")}
  {
    match FontFamilyNamed(KeyOf(s, "fontFamily"))
    case None => map[]
    case Some(f) => map[Var("--font-family") := f]
  }

  /** The duration both motion properties get. */
  function MotionDuration(s: Settings): string {
    if !TruthyField(s, "animationsEnabled") || TruthyField(s, "reducedMotion") then "0s"
    else CssOf(SpeedNamed(KeyOf(s, "animationSpeed")))
  }

  /** The layout, motion, typography and visibility properties, always written. */
  function LayoutVars(s: Settings): (r: map<CssVar, string>)
    ensures r.Keys == LayoutKeys
  {
    var motion := MotionDuration(s);
    map[
      Var("--container-width") := CssOf(ContainerWidthNamed(KeyOf(s, "containerWidth"))),
      Var("--animation-duration") := motion,
      Var("--transition-duration") := motion,
      Var("--font-size-base") := CssOf(FontSizeNamed(KeyOf(s, "fontSize"))),
      Var("--line-height-base") := CssOf(LineHeightNamed(KeyOf(s, "lineHeight"))),
      Var("--particles-display") := if TruthyField(s, "showParticles") then "block" else "none",
      Var("--gradients-opacity") := if TruthyField(s, "showGradients") then "1" else "0"]
  }

  /** The custom properties written on the document element, in the order
      they are written; no two parts write the same property. */
  function RootVars(s: Settings, dark: bool): map<CssVar, string> {
    ColourVars(s) + SchemePart(s, dark) + FontPart(s) + LayoutVars(s)
  }

  /** The body's scheme colours: its background and text colour, written
      only when the scheme is known. */
  function SchemeBody(s: Settings, dark: bool): (r: map<string, string>)
    ensures KeyOf(s, "colorScheme") !in SchemeNames ==> r == map[]
    ensures KeyOf(s, "colorScheme") in SchemeNames ==>
      var sc := ColorSchemeNamed(KeyOf(s, "colorScheme")).value;
      && r.Keys == {"background-color", "color"}
      && r["background-color"] == (if dark then sc.darkBg else sc.lightBg)
      && r["color"] == (if dark then sc.darkText else sc.lightText)
  {
    match ColorSchemeNamed(KeyOf(s, "colorScheme"))
    case None => map[]
    case Some(sc) => map[
      "background-color" := if dark then sc.darkBg else sc.lightBg,
      "color" := if dark then sc.darkText else sc.lightText]
  }

  /** The body's font family, when the setting names one of the table's fonts. */
  function FontBody(s: Settings): (r: map<string, string>)
    ensures r.Keys <= {"font-family"}
  {
    match FontFamilyNamed(KeyOf(s, "fontFamily"))
    case None => map[]
    case Some(f) => map["font-family" := f]
  }

  /** The inline styles written on the body. */
  function BodyStyles(s: Settings, dark: bool): map<string, string> {
    SchemeBody(s, dark) + FontBody(s)
  }

  /** What `applyBrandingSettings` writes into the document head: the title,
      the favicon link, and the `content` of the meta tags found by `name`
      and by `property`. */
  datatype Branding = Branding(
    title: Option<string>,
    favicon: Option<string>,
    metaNames: map<string, string>,
    metaProperties: map<string, string>)

  /** `String(s[name])` when that setting is truthy; otherwise the tag is not touched. */
  function IfTruthy(s: Settings, name: string): Option<string> {
    if TruthyField(s, name) then Some(ToStr(s[name])) else None
  }

  /** A meta tag to update: the name or property it is found by, and the
      content it gets, if that content is truthy. */
  datatype Tag = Tag(key: string, content: Option<string>)

  /** Updating the tags one after the other: each tag whose content is present
      gets it, and a later tag with the same key wins. */
  function TagWrites(tags: seq<Tag>): map<string, string> {
    if tags == [] then map[]
    else
      (if tags[0].content.Some? then map[tags[0].key := tags[0].content.value] else map[])
      + TagWrites(tags[1..])
  }

  predicate DistinctKeys(tags: seq<Tag>) {
    forall i, j :: 0 <= i < j < |tags| ==> tags[i].key != tags[j].key
  }

  /** With distinct keys, a tag is written exactly when its content is
      present, and then with that content. */
  lemma {:induction false} TagWritesLookup(tags: seq<Tag>, i: nat)
    requires DistinctKeys(tags)
    requires i < |tags|
    ensures tags[i].key in TagWrites(tags) <==> tags[i].content.Some?
    ensures tags[i].content.Some? ==> TagWrites(tags)[tags[i].key] == tags[i].content.value
  {
    var rest := TagWrites(tags[1..]);
    assert DistinctKeys(tags[1..]) by {
      forall a, b | 0 <= a < b < |tags[1..]|
        ensures tags[1..][a].key != tags[1..][b].key
      {
        assert tags[1..][a] == tags[a + 1] && tags[1..][b] == tags[b + 1];
      }
    }
    if i == 0 {
      if |tags| > 1 {
        TagAbsent(tags[1..], tags[0].key);
      }
    } else {
      TagWritesLookup(tags[1..], i - 1);
    }
  }

  /** A key no tag has is not written. */
  lemma {:induction false} TagAbsent(tags: seq<Tag>, k: string)
    requires forall j :: 0 <= j < |tags| ==> tags[j].key != k
    ensures k !in TagWrites(tags)
  {
    if tags != [] {
      TagAbsent(tags[1..], k);
    }
  }

  /** The tags found by `name`: the description, keywords and author tags,
      then the Twitter tags in the order they are written. */
  function NameTags(s: Settings): seq<Tag> {
    [Tag("description", IfTruthy(s, "siteDescription")),
     Tag("keywords", IfTruthy(s, "metaKeywords")),
     Tag("author", IfTruthy(s, "metaAuthor")),
     Tag("twitter:card", Some("summary_large_image")),
     Tag("twitter:title", IfTruthy(s, "siteName")),
     Tag("twitter:description", IfTruthy(s, "siteDescription")),
     Tag("twitter:image", IfTruthy(s, "socialImage")),
     Tag("twitter:site", IfTruthy(s, "twitterHandle"))]
  }

  /** The Open Graph tags, found by `property`. */
  function PropertyTags(s: Settings): seq<Tag> {
    [Tag("og:title", IfTruthy(s, "siteName")),
     Tag("og:description", IfTruthy(s, "siteDescription")),
     Tag("og:image", IfTruthy(s, "socialImage")),
     Tag("og:type", Some("website"))]
  }

  /** The meta tags found by `name` have different names. */
  lemma NameTagsDistinct(s: Settings)
    ensures DistinctKeys(NameTags(s))
  {
    assert "twitter:title"[8] != "twitter:image"[8];
    assert "twitter:card"[8] != "twitter:site"[8];
  }

  /** The Open Graph tags have different properties. */
  lemma PropertyTagsDistinct(s: Settings)
    ensures DistinctKeys(PropertyTags(s))
  {
    assert "og:title"[3] != "og:image"[3];
  }

  /** `applyBrandingSettings(settings)`. */
  function BrandingWrites(s: Settings): Branding {
    Branding(
      if TruthyField(s, "siteName") then
        Some(if TruthyField(s, "siteTagline")
             then ToStr(s["siteName"]) + " - " + ToStr(s["siteTagline"])
             else ToStr(s["siteName"]))
      else None,
      IfTruthy(s, "faviconUrl"),
      TagWrites(NameTags(s)),
      TagWrites(PropertyTags(s)))
  }

  /** `applyGlobalStyles(settings)`, with the platform's dark preference as `systemDark`. */
  function ApplyGlobalStyles(s: Settings, systemDark: bool): Styling {
    var theme := EffectiveTheme(Get(s, "themeMode"), systemDark);
    var token := JsString(theme);
    if !ValidClassToken(token) then ThemeClassRejected(token)
    else
      var dark := IsDark(theme);
      Applied(StyleWrites(
        token,
        RootVars(s, dark),
        BodyStyles(s, dark),
        if TruthyField(s, "customCSS") then Some(ToStr(s["customCSS"])) else None,
        TruthyField(s, "highContrast"),
        TruthyField(s, "reducedMotion"),
        BrandingWrites(s)))
  }

  // ---------------------------------------------------------------- properties

  /** Both motion properties get the same duration, and it is `0s` exactly
      when animations are off or reduced motion is asked for. */
  lemma MotionDurations(s: Settings, dark: bool)
    ensures var v := RootVars(s, dark);
      && v[Var("--animation-duration")] == v[Var("--transition-duration")]
      && (v[Var("--animation-duration")] == "0s" <==>
            !TruthyField(s, "animationsEnabled") || TruthyField(s, "reducedMotion"))
  {
    LayoutLookup(s, dark, Var("--animation-duration"));
    LayoutLookup(s, dark, Var("--transition-duration"));
    LayoutMotion(s);
  }

  /** The motion facts of the layout part on its own. */
  lemma LayoutMotion(s: Settings)
    ensures var v := LayoutVars(s);
      && v[Var("--animation-duration")] == v[Var("--transition-duration")] == MotionDuration(s)
      && (MotionDuration(s) == "0s" <==>
            !TruthyField(s, "animationsEnabled") || TruthyField(s, "reducedMotion"))
  {
    var k := KeyOf(s, "animationSpeed");
    assert CssOf(SpeedNamed(k)) in {"0.8s", "0.5s", "0.3s", "undefined"};
  }

  /** A layout property of the root comes from the layout part alone. */
  lemma LayoutLookup(s: Settings, dark: bool, k: CssVar)
    requires k in LayoutKeys
    ensures k in RootVars(s, dark) && RootVars(s, dark)[k] == LayoutVars(s)[k]
  {
  }

  /** A scheme property of the root comes from the scheme's part alone. */
  lemma SchemeKeyLookup(s: Settings, dark: bool, k: CssVar)
    requires k in SchemeKeys
    ensures k in RootVars(s, dark) <==> k in SchemePart(s, dark)
    ensures k in SchemePart(s, dark) ==> RootVars(s, dark)[k] == SchemePart(s, dark)[k]
  {
    SchemeKeysApart(k);
    SecondOfFour(ColourVars(s), SchemePart(s, dark), FontPart(s), LayoutVars(s), k);
  }

  /** The scheme's properties are named outright and written by no other part. */
  lemma SchemeKeysApart(k: CssVar)
    requires k in SchemeKeys
    ensures k.Var? && k !in ColourKeys && k !in LayoutKeys && k != Var("--font-family")
  {
  }

  /** The layout properties are named outright. */
  lemma LayoutKeysNamed(k: CssVar)
    requires k in LayoutKeys
    ensures k.Var?
  {
  }

  /** A key only the second of four maps may hold is looked up there. */
  lemma SecondOfFour<K, V>(a: map<K, V>, b: map<K, V>, c: map<K, V>, d: map<K, V>, k: K)
    requires k !in a && k !in c && k !in d
    ensures k in a + b + c + d <==> k in b
    ensures k in b ==> (a + b + c + d)[k] == b[k]
  {
  }

  /** A key only the first of four maps may hold is looked up there. */
  lemma FirstOfFour<K, V>(a: map<K, V>, b: map<K, V>, c: map<K, V>, d: map<K, V>, k: K)
    requires k !in b && k !in c && k !in d
    ensures k in a + b + c + d <==> k in a
    ensures k in a ==> (a + b + c + d)[k] == a[k]
  {
  }

  /** The theme colours are written exactly when the scheme is known, from
      the dark or the light half of the scheme. */
  lemma SchemeColoursWritten(s: Settings, dark: bool)
    ensures Var("--text-color") in RootVars(s, dark) <==> KeyOf(s, "colorScheme") in SchemeNames
    ensures Var("--bg-color") in RootVars(s, dark) <==> KeyOf(s, "colorScheme") in SchemeNames
    ensures Var("--card-color") in RootVars(s, dark) <==> KeyOf(s, "colorScheme") in SchemeNames
    ensures KeyOf(s, "colorScheme") in SchemeNames ==>
      var v := RootVars(s, dark);
      var sc := ColorSchemeNamed(KeyOf(s, "colorScheme")).value;
      && v[Var("--text-color")] == (if dark then sc.darkText else sc.lightText)
      && v[Var("--bg-color")] == (if dark then sc.darkBg else sc.lightBg)
      && v[Var("--card-color")] == (if dark then sc.darkCard else sc.lightCard)
  {
    SchemeKeyLookup(s, dark, Var("--text-color"));
    SchemeKeyLookup(s, dark, Var("--bg-color"));
    SchemeKeyLookup(s, dark, Var("--card-color"));
  }

  /** The body gets the scheme's background and text colours exactly when the
      root does, and the same ones. */
  lemma BodyMatchesRoot(s: Settings, dark: bool)
    ensures "background-color" in BodyStyles(s, dark) <==> Var("--bg-color") in RootVars(s, dark)
    ensures "color" in BodyStyles(s, dark) <==> Var("--text-color") in RootVars(s, dark)
    ensures "background-color" in BodyStyles(s, dark) ==>
      BodyStyles(s, dark)["background-color"] == RootVars(s, dark)[Var("--bg-color")]
    ensures "color" in BodyStyles(s, dark) ==>
      BodyStyles(s, dark)["color"] == RootVars(s, dark)[Var("--text-color")]
  {
    SchemeColoursWritten(s, dark);
    BodySchemeColours(s, dark);
    var known := KeyOf(s, "colorScheme") in SchemeNames;
    var sc := if known then ColorSchemeNamed(KeyOf(s, "colorScheme")).value else Scheme("", "", "", []);
    SameEntry(BodyStyles(s, dark), RootVars(s, dark), "background-color", Var("--bg-color"), known,
      if dark then sc.darkBg else sc.lightBg);
    SameEntry(BodyStyles(s, dark), RootVars(s, dark), "color", Var("--text-color"), known,
      if dark then sc.darkText else sc.lightText);
  }

  /** Two maps that hold the same value under their keys exactly when `known`. */
  lemma SameEntry<K, L, V>(a: map<K, V>, b: map<L, V>, ka: K, kb: L, known: bool, v: V)
    requires ka in a <==> known
    requires kb in b <==> known
    requires known ==> a[ka] == v && b[kb] == v
    ensures ka in a <==> kb in b
    ensures ka in a ==> a[ka] == b[kb]
  {
  }

  /** The body's colours on their own: written exactly for a known scheme,
      from its dark or light half. */
  lemma BodySchemeColours(s: Settings, dark: bool)
    ensures "background-color" in BodyStyles(s, dark) <==> KeyOf(s, "colorScheme") in SchemeNames
    ensures "color" in BodyStyles(s, dark) <==> KeyOf(s, "colorScheme") in SchemeNames
    ensures KeyOf(s, "colorScheme") in SchemeNames ==>
      var sc := ColorSchemeNamed(KeyOf(s, "colorScheme")).value;
      && BodyStyles(s, dark)["background-color"] == (if dark then sc.darkBg else sc.lightBg)
      && BodyStyles(s, dark)["color"] == (if dark then sc.darkText else sc.lightText)
  {
    assert "background-color" !in FontBody(s) && "color" !in FontBody(s);
  }

  /** A ladder step of the root comes from the colour part alone. */
  lemma ShadeLookup(s: Settings, dark: bool, k: CssVar)
    requires k.Shade?
    ensures k in RootVars(s, dark) <==> k in ColourVars(s)
    ensures k in ColourVars(s) ==> RootVars(s, dark)[k] == ColourVars(s)[k]
  {
    if k in SchemePart(s, dark) {
      SchemeKeysApart(k);
    }
    if k in LayoutVars(s) {
      LayoutKeysNamed(k);
    }
    FirstOfFour(ColourVars(s), SchemePart(s, dark), FontPart(s), LayoutVars(s), k);
  }

  /** A primary step of the colour part comes from the primary ladder alone. */
  lemma PrimaryShadeLookup(s: Settings, n: nat)
    ensures Shade(Primary, n) in ColourVars(s) <==> Shade(Primary, n) in ColorVariations(Get(s, "primaryColor"), Primary)
    ensures Shade(Primary, n) in ColourVars(s) ==>
      ColourVars(s)[Shade(Primary, n)] == ColorVariations(Get(s, "primaryColor"), Primary)[Shade(Primary, n)]
  {
    var k := Shade(Primary, n);
    assert k !in ColorVariations(Get(s, "secondaryColor"), Secondary);
    assert k !in ColorVariations(Get(s, "accentColor"), Accent);
  }

  /** Step 500 of the primary ladder is written exactly when the primary
      colour is a hex colour, and is then the colour as the setting holds it. */
  lemma PrimaryLadderWritten(s: Settings, dark: bool)
    ensures Shade(Primary, 500) in RootVars(s, dark) <==> HexToRgb(KeyOf(s, "primaryColor")).Some?
    ensures Shade(Primary, 500) in RootVars(s, dark) ==>
      RootVars(s, dark)[Shade(Primary, 500)] == CssValue(Get(s, "primaryColor"))
  {
    var primary := Get(s, "primaryColor");
    ShadeLookup(s, dark, Shade(Primary, 500));
    PrimaryShadeLookup(s, 500);
    ColorVariationsWrittenIff(primary, Primary);
    if HexToRgb(JsString(primary)).Some? {
      ColorVariationsSteps(primary, Primary, HexToRgb(JsString(primary)).value);
    }
  }

  /** The three theme modes the site offers are always accepted by the class
      list, and the body ends up with `dark` exactly in dark mode or in auto
      mode on a dark platform; an empty mode is rejected. */
  lemma ThemeClassOfModes(s: Settings, systemDark: bool)
    ensures Get(s, "themeMode") in {Some(JStr("light")), Some(JStr("dark")), Some(JStr("auto"))} ==>
      && ApplyGlobalStyles(s, systemDark).Applied?
      && ApplyGlobalStyles(s, systemDark).writes.themeClass in {"light", "dark"}
      && (ApplyGlobalStyles(s, systemDark).writes.themeClass == "dark" <==>
            Get(s, "themeMode") == Some(JStr("dark")) || (Get(s, "themeMode") == Some(JStr("auto")) && systemDark))
    ensures Get(s, "themeMode") == Some(JStr("")) ==> ApplyGlobalStyles(s, systemDark) == ThemeClassRejected("")
  {
    var theme := EffectiveTheme(Get(s, "themeMode"), systemDark);
    ThemeTokenOfModes(Get(s, "themeMode"), systemDark);
    AppliedThemeClass(s, systemDark);
  }

  /** The token the three offered modes produce is `light` or `dark`, a
      valid class; an empty mode produces the empty token. */
  lemma ThemeTokenOfModes(mode: Option<Json>, systemDark: bool)
    ensures mode in {Some(JStr("light")), Some(JStr("dark")), Some(JStr("auto"))} ==>
      var token := JsString(EffectiveTheme(mode, systemDark));
      && token in {"light", "dark"}
      && ValidClassToken(token)
      && (token == "dark" <==> mode == Some(JStr("dark")) || (mode == Some(JStr("auto")) && systemDark))
    ensures mode == Some(JStr("")) ==> JsString(EffectiveTheme(mode, systemDark)) == ""
  {
    var theme := EffectiveTheme(mode, systemDark);
    if theme == Some(JStr("light")) {
      assert JsString(theme) == "light";
    } else if theme == Some(JStr("dark")) {
      assert JsString(theme) == "dark";
    }
  }

  /** A run completes exactly when the theme token is a valid class, and then
      the body gets that token as its class; otherwise the token is rejected. */
  lemma AppliedThemeClass(s: Settings, systemDark: bool)
    ensures var token := JsString(EffectiveTheme(Get(s, "themeMode"), systemDark));
      && (ApplyGlobalStyles(s, systemDark).Applied? <==> ValidClassToken(token))
      && (ApplyGlobalStyles(s, systemDark).Applied? ==> ApplyGlobalStyles(s, systemDark).writes.themeClass == token)
      && (!ValidClassToken(token) ==> ApplyGlobalStyles(s, systemDark) == ThemeClassRejected(token))
  {
  }

  /** A completed run puts the theme's text on the body and writes the root
      properties and body styles of the dark theme exactly when the theme is
      `"dark"`. (An array holding `"dark"` prints as `dark` but is not equal
      to it, so the class and the colours can disagree for such a value.) */
  lemma AppliedWrites(s: Settings, systemDark: bool)
    requires ApplyGlobalStyles(s, systemDark).Applied?
    ensures var w := ApplyGlobalStyles(s, systemDark).writes;
      var theme := EffectiveTheme(Get(s, "themeMode"), systemDark);
      && w.themeClass == JsString(theme)
      && w.rootVars == RootVars(s, IsDark(theme))
      && w.bodyStyles == BodyStyles(s, IsDark(theme))
      && w.head == BrandingWrites(s)
      && (w.customCss.Some? <==> TruthyField(s, "customCSS"))
  {
  }

  /** The platform preference matters only in auto mode, which is why the
      provider listens for its changes only then. */
  lemma SystemPreferenceOnlyInAuto(s: Settings)
    requires Get(s, "themeMode") != Some(JStr("auto"))
    ensures ApplyGlobalStyles(s, true) == ApplyGlobalStyles(s, false)
  {
  }

  /** Every preset template names a known colour scheme, so applying one
      always writes the theme colours. */
  lemma TemplateWritesSchemeColours(s: Settings, name: string, dark: bool)
    requires name in TemplateNames
    ensures Var("--text-color") in RootVars(Merge(s, TemplatePatch(name)), dark)
  {
    var t := Merge(s, TemplatePatch(name));
    assert KeyOf(t, "colorScheme") == ToStr(TemplatePatch(name)["colorScheme"]);
    SchemeColoursWritten(t, dark);
  }

  /** The title is written only when there is a site name, with the tagline
      after a dash when there is one. */
  lemma BrandingTitle(s: Settings)
    ensures BrandingWrites(s).title.Some? <==> TruthyField(s, "siteName")
    ensures TruthyField(s, "siteName") && TruthyField(s, "siteTagline") ==>
      BrandingWrites(s).title == Some(ToStr(s["siteName"]) + " - " + ToStr(s["siteTagline"]))
    ensures TruthyField(s, "siteName") && !TruthyField(s, "siteTagline") ==>
      BrandingWrites(s).title == Some(ToStr(s["siteName"]))
  {
  }

  /** The Open Graph type and the Twitter card kind are always written, and a
      site description reaches its meta tag, the Open Graph tag and the Twitter
      tag, none of which is touched without one. */
  lemma DescriptionTags(s: Settings)
    ensures var b := BrandingWrites(s);
      && "og:type" in b.metaProperties && b.metaProperties["og:type"] == "website"
      && "twitter:card" in b.metaNames && b.metaNames["twitter:card"] == "summary_large_image"
      && ("description" in b.metaNames <==> TruthyField(s, "siteDescription"))
      && ("twitter:description" in b.metaNames <==> TruthyField(s, "siteDescription"))
      && ("og:description" in b.metaProperties <==> TruthyField(s, "siteDescription"))
    ensures TruthyField(s, "siteDescription") ==>
      var b := BrandingWrites(s);
      var d := ToStr(s["siteDescription"]);
      b.metaNames["description"] == d && b.metaNames["twitter:description"] == d && b.metaProperties["og:description"] == d
  {
    var names, props := NameTags(s), PropertyTags(s);
    NameTagsDistinct(s);
    PropertyTagsDistinct(s);
    TagWritesLookup(names, 0);
    TagWritesLookup(names, 3);
    TagWritesLookup(names, 5);
    TagWritesLookup(props, 1);
    TagWritesLookup(props, 3);
  }
}
