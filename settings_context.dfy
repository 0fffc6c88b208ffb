/** The settings record of the site: its defaults, the colour-scheme and
    template presets, and the pure rules by which a record is loaded,
    imported and patched (src/contexts/SettingsContext.js). */
module SettingsContext {
  import opened Js

  /** The settings record: a flat map of option name to value. */
  type Settings = Record

  /** The storage key the record is persisted under. */
  const StorageKey: string := "portfolio_settings"

  /** The file name an export is downloaded as. */
  const ExportFileName: string := "portfolio-settings.json"

  /** `defaultSettings`. */
  const DefaultSettings: Settings := map[
    "siteName" := JStr("Portfolio"),
    "siteTagline" := JStr("Professional Portfolio"),
    "siteDescription" := JStr("A modern portfolio showcasing my work and expertise"),
    "logoUrl" := JStr("/logo.png"),
    "faviconUrl" := JStr("/favicon.ico"),
    "logoText" := JStr("Portfolio"),
    "showLogoText" := JBool(true),
    "logoPosition" := JStr("left"),
    "logoSize" := JStr("medium"),
    "metaKeywords" := JStr("portfolio, web development, react, javascript"),
    "metaAuthor" := JStr("Portfolio Owner"),
    "socialImage" := JStr("/social-preview.jpg"),
    "twitterHandle" := JStr("@portfolio"),
    "template" := JStr("modern"),
    "layout" := JStr("default"),
    "navigation" := JStr("horizontal"),
    "themeMode" := JStr("auto"),
    "colorScheme" := JStr("purple-pink"),
    "primaryColor" := JStr("#8b5cf6"),
    "secondaryColor" := JStr("#ec4899"),
    "accentColor" := JStr("#f59e0b"),
    "lightBackgroundColor" := JStr("#ffffff"),
    "darkBackgroundColor" := JStr("#000000"),
    "fontFamily" := JStr("inter"),
    "fontSize" := JStr("normal"),
    "fontWeight" := JStr("normal"),
    "lineHeight" := JStr("normal"),
    "animationsEnabled" := JBool(true),
    "animationSpeed" := JStr("normal"),
    "reducedMotion" := JBool(false),
    "particleEffects" := JBool(true),
    "hoverEffects" := JBool(true),
    "showParticles" := JBool(true),
    "showGradients" := JBool(true),
    "showGlassEffect" := JBool(true),
    "showSocialLinks" := JBool(true),
    "showScrollIndicator" := JBool(true),
    "showLoadingScreen" := JBool(true),
    "containerWidth" := JStr("default"),
    "sectionSpacing" := JStr("normal"),
    "cardSpacing" := JStr("normal"),
    "imageOptimization" := JBool(true),
    "lazyLoading" := JBool(true),
    "preloadCritical" := JBool(true),
    "highContrast" := JBool(false),
    "focusIndicators" := JBool(true),
    "keyboardNavigation" := JBool(true),
    "screenReaderOptimized" := JBool(false),
    "customCSS" := JStr(""),
    "devMode" := JBool(false),
    "debugMode" := JBool(false)
  ]

  /** One entry of `colorSchemes`. */
  datatype ColorScheme = ColorScheme(
    primary: string, secondary: string, accent: string,
    gradients: seq<string>,
    lightText: string, darkText: string,
    lightBg: string, darkBg: string,
    lightCard: string, darkCard: string)

  /** The five schemes share their text, background and card colours. */
  function Scheme(primary: string, secondary: string, accent: string, gradients: seq<string>): ColorScheme {
    ColorScheme(primary, secondary, accent, gradients,
                "#374151", "#f3f4f6", "#ffffff", "#000000", "#f9fafb", "#1f2937")
  }

  /** The names `colorSchemes` has an entry for. */
  const SchemeNames: set<string> := {"purple-pink", "blue-cyan", "green-teal", "orange-red", "monochrome"}

  /** `colorSchemes[name]`, with `undefined` as `None`. */
  function ColorSchemeNamed(name: string): (r: Option<ColorScheme>)
    ensures r.Some? <==> name in SchemeNames
  {
    match name
    case "purple-pink" => Some(Scheme("#8b5cf6", "#ec4899", "#f59e0b", ["from-purple-500", "via-pink-500", "to-red-500"]))
    case "blue-cyan" => Some(Scheme("#3b82f6", "#06b6d4", "#10b981", ["from-blue-500", "via-cyan-500", "to-teal-500"]))
    case "green-teal" => Some(Scheme("#10b981", "#14b8a6", "#f59e0b", ["from-green-500", "via-emerald-500", "to-teal-500"]))
    case "orange-red" => Some(Scheme("#f97316", "#ef4444", "#eab308", ["from-orange-500", "via-red-500", "to-pink-500"]))
    case "monochrome" => Some(Scheme("#6b7280", "#374151", "#9ca3af", ["from-gray-600", "via-gray-500", "to-gray-400"]))
    case _ => None
  }

  /** The patch `applyColorScheme(name)` hands to `updateSettings`; `None` for
      an unknown name, for which nothing is updated. */
  function ColorSchemePatch(name: string): (r: Option<Settings>)
    ensures r.Some? <==> name in SchemeNames
    ensures r.Some? ==> r.value.Keys == {"colorScheme", "primaryColor", "secondaryColor", "accentColor"}
    ensures r.Some? ==> r.value["colorScheme"] == JStr(name)
    ensures r.Some? ==> r.value["primaryColor"] == JStr(ColorSchemeNamed(name).value.primary)
    ensures r.Some? ==> r.value["secondaryColor"] == JStr(ColorSchemeNamed(name).value.secondary)
    ensures r.Some? ==> r.value["accentColor"] == JStr(ColorSchemeNamed(name).value.accent)
  {
    match ColorSchemeNamed(name)
    case None => None
    case Some(sc) => Some(map[
      "colorScheme" := JStr(name),
      "primaryColor" := JStr(sc.primary),
      "secondaryColor" := JStr(sc.secondary),
      "accentColor" := JStr(sc.accent)])
  }

  /** The names `getTemplateSettings` has a configuration for. */
  const TemplateNames: set<string> := {"modern", "classic", "minimal", "creative", "cyberpunk"}

  /** `getTemplateSettings(name)`: the preset patch, or `{}` for an unknown name. */
  function TemplatePatch(name: string): (r: Settings)
    ensures name in TemplateNames ==> "template" in r && r["template"] == JStr(name)
    ensures name in TemplateNames ==> "colorScheme" in r && ToStr(r["colorScheme"]) in SchemeNames
    ensures name !in TemplateNames <==> r == map[]
  {
    match name
    case "modern" => map[
      "template" := JStr("modern"), "colorScheme" := JStr("purple-pink"),
      "showGradients" := JBool(true), "showGlassEffect" := JBool(true), "showParticles" := JBool(true),
      "animationsEnabled" := JBool(true), "animationSpeed" := JStr("normal"),
      "fontFamily" := JStr("inter"), "layout" := JStr("default")]
    case "classic" => map[
      "template" := JStr("classic"), "colorScheme" := JStr("blue-cyan"),
      "showGradients" := JBool(false), "showGlassEffect" := JBool(false), "showParticles" := JBool(false),
      "animationsEnabled" := JBool(true), "animationSpeed" := JStr("slow"),
      "fontFamily" := JStr("roboto"), "layout" := JStr("default")]
    case "minimal" => map[
      "template" := JStr("minimal"), "colorScheme" := JStr("monochrome"),
      "showGradients" := JBool(false), "showGlassEffect" := JBool(false), "showParticles" := JBool(false),
      "animationsEnabled" := JBool(false), "animationSpeed" := JStr("fast"),
      "fontFamily" := JStr("inter"), "layout" := JStr("default"), "sectionSpacing" := JStr("spacious")]
    case "creative" => map[
      "template" := JStr("creative"), "colorScheme" := JStr("orange-red"),
      "showGradients" := JBool(true), "showGlassEffect" := JBool(true), "showParticles" := JBool(true),
      "animationsEnabled" := JBool(true), "animationSpeed" := JStr("fast"),
      "fontFamily" := JStr("poppins"), "layout" := JStr("grid")]
    case "cyberpunk" => map[
      "template" := JStr("cyberpunk"), "colorScheme" := JStr("purple-pink"),
      "showGradients" := JBool(true), "showGlassEffect" := JBool(true), "showParticles" := JBool(true),
      "animationsEnabled" := JBool(true), "animationSpeed" := JStr("fast"),
      "fontFamily" := JStr("montserrat"), "layout" := JStr("default"),
      "primaryColor" := JStr("#00ff88"), "secondaryColor" := JStr("#ff0080"),
      "accentColor" := JStr("#ffff00"), "backgroundColor" := JStr("#000000")]
    case _ => map[]
  }

  /** Every record the store can hold has a value for every default key. */
  predicate HasDefaultKeys(s: Settings) {
    DefaultSettings.Keys <= s.Keys
  }

  /** The `useState` initialiser: `saved` is what `localStorage` holds under
      the key (`None` when absent) and `parsed` the outcome of `JSON.parse`
      on it (`None` when it throws). An absent or empty entry gives the
      defaults; a parsed entry is spread over the defaults; a parse failure
      propagates out of the initialiser, which the model reports as `None`. */
  function InitialSettings(saved: Option<string>, parsed: Option<Json>): (r: Option<Settings>)
    ensures r.None? <==> saved.Some? && saved.value != "" && parsed.None?
    ensures r.Some? ==> HasDefaultKeys(r.value)
    ensures (saved.None? || saved.value == "") ==> r == Some(DefaultSettings)
    ensures r.Some? && saved.Some? && saved.value != "" ==>
      (forall k :: k in Spread(parsed.value) ==> k in r.value && r.value[k] == Spread(parsed.value)[k]) &&
      (forall k :: k in DefaultSettings && k !in Spread(parsed.value) ==> k in r.value && r.value[k] == DefaultSettings[k])
  {
    if saved.None? || saved.value == "" then Some(DefaultSettings)
    else if parsed.None? then None
    else Some(Merge(DefaultSettings, Spread(parsed.value)))
  }

  /** `importSettings`: the record it installs, or `None` when parsing failed
      (it then returns false and installs nothing). */
  function ImportedSettings(parsed: Option<Json>): (r: Option<Settings>)
    ensures r.Some? <==> parsed.Some?
    ensures r.Some? ==> HasDefaultKeys(r.value)
    ensures r.Some? ==>
      (forall k :: k in Spread(parsed.value) ==> k in r.value && r.value[k] == Spread(parsed.value)[k]) &&
      (forall k :: k in DefaultSettings && k !in Spread(parsed.value) ==> k in r.value && r.value[k] == DefaultSettings[k])
    ensures r.Some? ==> r.value.Keys == DefaultSettings.Keys + Spread(parsed.value).Keys
  {
    if parsed.None? then None else Some(Merge(DefaultSettings, Spread(parsed.value)))
  }

  /** Loading at start-up and importing agree whenever the entry parses. */
  lemma LoadAgreesWithImport(saved: string, parsed: Json)
    requires saved != ""
    ensures InitialSettings(Some(saved), Some(parsed)) == ImportedSettings(Some(parsed))
  {
  }

  /** Exporting a record the store holds and importing the exported object
      gives back exactly that record, extra keys included. */
  lemma ExportImportRoundTrip(s: Settings)
    requires HasDefaultKeys(s)
    ensures ImportedSettings(Some(JObj(s))) == Some(s)
  {
    MergeAbsorbs(DefaultSettings, s);
  }

  /** Importing an object whose top-level keys are all unknown keeps every
      default and adds those keys. */
  lemma ImportUnknownKeys(extra: Record)
    requires extra.Keys !! DefaultSettings.Keys
    ensures ImportedSettings(Some(JObj(extra))).Some?
    ensures ImportedSettings(Some(JObj(extra))).value == DefaultSettings + extra
    ensures forall k :: k in DefaultSettings ==> ImportedSettings(Some(JObj(extra))).value[k] == DefaultSettings[k]
  {
  }

  /** After a reset and the save that follows it, reloading the page gives the defaults. */
  lemma ReloadAfterReset(saved: string)
    requires saved != ""
    ensures InitialSettings(Some(saved), Some(JObj(DefaultSettings))) == Some(DefaultSettings)
  {
    MergeAbsorbs(DefaultSettings, DefaultSettings);
  }

  /** Applying an unknown template merges the empty patch: nothing changes. */
  lemma UnknownTemplateIsNoOp(s: Settings, name: string)
    requires name !in TemplateNames
    ensures Merge(s, TemplatePatch(name)) == s
  {
  }

  /** A known colour scheme sets the four colour keys and leaves every other key as it was. */
  lemma ColorSchemeChangesOnlyColours(s: Settings, name: string)
    requires name in SchemeNames
    ensures var r := Merge(s, ColorSchemePatch(name).value);
      && r["colorScheme"] == JStr(name)
      && r["primaryColor"] == JStr(ColorSchemeNamed(name).value.primary)
      && (forall k :: k in s && k !in {"colorScheme", "primaryColor", "secondaryColor", "accentColor"} ==> k in r && r[k] == s[k])
      && r.Keys == s.Keys + {"colorScheme", "primaryColor", "secondaryColor", "accentColor"}
  {
  }

  /** Every patch keeps the default keys present. */
  lemma MergeKeepsDefaultKeys(s: Settings, patch: Record)
    requires HasDefaultKeys(s)
    ensures HasDefaultKeys(Merge(s, patch))
  {
  }

  /** What the provider saves is what the next page load starts from: `text`
      stands for the saved `JSON.stringify` text, whose parse is
      `Stringified(JObj(s))`; a record without `-Infinity` comes back exactly. */
  lemma ReloadAfterSave(text: string, s: Settings)
    requires text != ""
    requires HasDefaultKeys(s)
    ensures InitialSettings(Some(text), Some(Stringified(JObj(s)))) == Some(Stringified(JObj(s)).fields)
    ensures NoNegInfinity(JObj(s)) ==> InitialSettings(Some(text), Some(Stringified(JObj(s)))) == Some(s)
  {
    StringifiedObjectKeys(s);
    MergeAbsorbs(DefaultSettings, Stringified(JObj(s)).fields);
    if NoNegInfinity(JObj(s)) {
      StringifiedKeeps(JObj(s));
    }
  }
}
