# A verified model of the portfolio site's stores and page logic

The site is a single-page React portfolio with an admin dashboard. This
project models in Dafny the parts of it that hold state or compute
something, and proves what they promise:

- **The settings store** (`SettingsProvider`). It has the defaults, five colour
  schemes and five templates. It loads, updates, resets, imports and exports
  settings. The styles are derived from the settings. One pure function says
  everything `applyGlobalStyles` and `applyBrandingSettings` write, given the
  settings and the platform's dark-mode preference.
- **The content store** (`PortfolioProvider` in `App.js`). It holds one
  document, replaced wholesale and saved on every update.
- **The dashboard** (`Dashboard.js`). This covers:
  - the map of open editors;
  - per-section and per-item saves;
  - appending with the next id;
  - deleting by id;
  - importing and exporting the document.
- **Authentication** (`AuthContext.js`). This covers restoring a session, login
  against the fixed credentials, the session token, and logout. The token is
  the browser's `btoa`, which is Base64 as defined in section 4 of RFC 4648.
- **The dashboard editors** for skills, experience, projects, blog posts,
  social links and the résumé. These cover:
  - the normalisation applied on submit (comma-separated lists, the
    `featured` flag, the publication date);
  - the defaults of new items;
  - what the preview cards show.
- **The public pages**:
  - the project filter and statistics (`Projects.js`);
  - the blog topic list and filter (`Blog.js`);
  - the post page (`BlogDetail.js`): lookup by `parseInt` of the route, share
    links built with `encodeURIComponent` (UTF-8 by RFC 3629, then
    percent-encoding as in section 2.1 of RFC 3986), and related posts;
  - the navigation bar's theme toggle, logo, scroll state and active link
    (`Navbar.js`).

JavaScript values are the datatype `Js.Json`:

- Numbers are integers. `-Infinity` has its own constructor.
- A missing property is `None`.
- Truthiness, `String(v)`, object spread and `{...a, ...b}` are written out in
  `Js`.

Some effects become parameters:

- `JSON.parse` becomes its outcome (`None` when it throws).
- `Date.now()`, the current date, `window.confirm`, the platform's dark-mode
  preference, `window.scrollY` and `window.location.href` become inputs.
- The text `JSON.stringify` produces is an input wherever it is needed. What
  parsing that text gives back is `Js.Stringified`: the same value, except
  that `-Infinity`, which JSON cannot hold, comes back as `null`.

What the browser would do to the page comes back as values:

- style writes as maps;
- thrown exceptions as an `Outcome` or `Option`.

Stateful parts are classes whose methods change their fields: `SettingsStore`,
`Portfolio`, `Dashboard`, `AuthStore`, `SkillsEditor` and `NavigationBar`.
Everything else is functions and lemmas.

Two behaviours of the code are worth knowing:

- **The first item in an empty section.** `Math.max()` of no ids is
  `-Infinity`, so the new item's id is `-Infinity`
  (`DashboardPage.NextIdFresh`). The save writes that id as `null`, so after a
  reload it reads as 0 and the next item gets id 1
  (`DashboardPage.FirstIdAfterReload`).
- **The technical skill name.** `addTechSkill` trims the name only to test it
  for blankness, and stores it as typed (`SkillsSection.AddTech`).

## Model

| member | source | states |
|---|---|---|
| Js.Merge | src/contexts/SettingsContext.js:228-230 | `{...a, ...b}` has the keys of both, the value from `b` on a shared key and from `a` otherwise |
| Js.MergeAssoc | src/contexts/SettingsContext.js:228-230 | successive patches compose: merging `b` then `c` equals merging their merge |
| Js.MergeEmpty | src/contexts/SettingsContext.js:694 | merging the empty patch `{}` changes nothing |
| Js.Spread | src/pages/Dashboard.js:100-103 | `{...v}` copies an object's fields, and nothing from `null`, a boolean or a number |
| Js.Field | src/components/dashboard/SocialMediaSection.js:145 | `data?.[key]` is defined exactly when the record exists and has the key, and is then the record's value |
| Js.Stringified | src/App.js:45 | parsing the stringified value gives a value with no `-Infinity` left in it |
| Js.StringifiedKeeps | src/App.js:45 | a value without `-Infinity` comes back from stringify and parse unchanged |
| Js.StringifiedFixedPoints | src/App.js:45 | a value comes back unchanged exactly when it holds no `-Infinity`, and a second round trip changes nothing |
| Js.ChildText | src/components/dashboard/ResumeSection.js:210 | React's rendering of a child throws exactly when the value holds a plain object |
| Js.ChildTextAgreesWithToStr | src/components/dashboard/ResumeSection.js:227 | a string or number child shows as `String(v)`; `true` and `null` show nothing, although `String` writes them out |
| Js.ChildTextOfStrings | src/components/dashboard/ResumeSection.js:233 | an array of strings shows its elements run together, where `String` joins them with commas |
| Js.NatToString | src/pages/Dashboard.js:86 | `String(n)` is non-empty, all decimal digits, has no leading zero and denotes `n` |
| Strings.Trim | src/components/dashboard/SkillsSection.js:19 | `trim()` returns a trimmed infix of the input with only whitespace cut on either side |
| Strings.TrimEmptyIff | src/components/dashboard/SkillsSection.js:19 | the trimmed text is empty exactly when the text is all whitespace |
| Strings.ContainsIff | src/pages/Projects.js:42-47 | `includes(sub)` holds exactly when `sub` occurs at some position |
| Strings.SplitJoin | src/components/dashboard/ExperienceSection.js:31 | joining the pieces of `split(sep)` with `sep` gives the input back |
| Strings.SplitCount | src/components/dashboard/ProjectsSection.js:21 | splitting at a character gives one more piece than there are occurrences of it |
| Strings.Split | src/components/dashboard/ExperienceSection.js:31 | `split` with a non-empty separator always gives at least one piece |
| Strings.ToLower | src/pages/Projects.js:42-47 | `toLowerCase()` keeps the length and lowers each ASCII capital, leaving other characters alone |
| Seqs.Filter | src/pages/Projects.js:38-50 | `filter(p)` is a sublist in the original order, every element satisfies `p`, and every element satisfying `p` is kept |
| Seqs.FilterCounts | src/pages/Dashboard.js:127 | `filter(p)` keeps every copy of an element that satisfies `p` and no copy of one that does not |
| Seqs.CountWhere | src/pages/Projects.js:459 | the count is the length of the filtered list |
| Seqs.CountWhereAppend | src/pages/Projects.js:459-471 | counting over a concatenation adds the counts |
| Seqs.FlatMap | src/pages/Blog.js:21 | `flatMap(f)` holds exactly the elements of the lists `f` gives |
| Seqs.WithoutIndex | src/components/dashboard/SkillsSection.js:30 | filtering out position `i` removes exactly that position and keeps the rest in order |
| Seqs.Dedup | src/pages/Blog.js:21 | `[...new Set(s)]` is duplicate-free, has the members of `s`, and lists them in first-occurrence order |
| Seqs.DedupCardinality | src/pages/Projects.js:483 | `new Set(s).size` is the number of distinct elements of `s` |
| SettingsContext.ColorSchemeNamed | src/contexts/SettingsContext.js:90-151 | a scheme is found exactly for the five table names |
| SettingsContext.ColorSchemePatch | src/contexts/SettingsContext.js:242-252 | a known scheme patches exactly `colorScheme` and the three colours, with that scheme's values; an unknown one gives no patch |
| SettingsContext.TemplatePatch | src/contexts/SettingsContext.js:630-695 | a known template's preset sets `template` and names a known colour scheme; an unknown name gives `{}` |
| SettingsContext.InitialSettings | src/contexts/SettingsContext.js:207-212 | no saved text gives the defaults; saved text that parses gives `defaults ⊕ parsed` with every default key; a parse failure escapes (no record) |
| SettingsContext.ImportedSettings | src/contexts/SettingsContext.js:266-275 | an import succeeds exactly when the text parses, and gives `defaults ⊕ parsed`, whose keys are the defaults' and the import's |
| SettingsContext.LoadAgreesWithImport | src/contexts/SettingsContext.js:207-212 | loading saved text and importing the same text give the same record |
| SettingsContext.ExportImportRoundTrip | src/contexts/SettingsContext.js:254-275 | importing an exported record with every default key gives that record back |
| SettingsContext.ImportUnknownKeys | src/contexts/SettingsContext.js:266-275 | imported keys the defaults lack are kept, and defaults the import lacks stay |
| SettingsContext.ReloadAfterReset | src/contexts/SettingsContext.js:232-235 | after a reset has been saved, a reload gives the defaults |
| SettingsContext.UnknownTemplateIsNoOp | src/contexts/SettingsContext.js:694 | applying an unknown template changes nothing |
| SettingsContext.ColorSchemeChangesOnlyColours | src/contexts/SettingsContext.js:242-252 | applying a known scheme changes only `colorScheme` and the three colours |
| SettingsContext.MergeKeepsDefaultKeys | src/contexts/SettingsContext.js:228-230 | an update keeps every default key present |
| SettingsContext.ReloadAfterSave | src/contexts/SettingsContext.js:207-215 | the next load gives the saved record as stringify and parse return it, which is the record itself when it holds no `-Infinity` |
| GlobalStyles.EffectiveTheme | src/contexts/SettingsContext.js:303-312 | the theme is dark exactly when the mode is dark, or auto on a dark platform; auto gives light or dark; any other mode passes through |
| GlobalStyles.HexDigitsOf | src/contexts/SettingsContext.js:324 | the pattern matches exactly an optional `#` and six hex digits of either case |
| GlobalStyles.HexToRgb | src/contexts/SettingsContext.js:323-332 | `hexToRgb` gives a colour exactly when the pattern matches, with components below 256 |
| GlobalStyles.HexRoundTrip | src/contexts/SettingsContext.js:323-332 | writing a colour as `#rrggbb` and reading it back gives the colour |
| GlobalStyles.HexNormalises | src/contexts/SettingsContext.js:323-332 | reading a hex colour and writing it back gives its digits in lower case after `#` |
| GlobalStyles.ColorVariations | src/contexts/SettingsContext.js:335-352 | a ladder holds only steps of its own palette |
| GlobalStyles.ColorVariationsWrittenIff | src/contexts/SettingsContext.js:336-337 | the ladder is empty exactly when the base colour is not hex |
| GlobalStyles.ColorVariationsSteps | src/contexts/SettingsContext.js:341-351 | a written ladder has exactly the ten steps; step 500 is the base colour as given, 50 the faintest and 900 opaque |
| GlobalStyles.ShadeNamesDistinct | src/contexts/SettingsContext.js:341-351 | different ladder steps are written to different property names |
| GlobalStyles.SchemeVars | src/contexts/SettingsContext.js:365-399 | a known scheme writes the text, background and card colours of the dark or the light half |
| GlobalStyles.ColourVars | src/contexts/SettingsContext.js:355-362 | the colour part holds only the three colour properties and ladder steps |
| GlobalStyles.SchemePart | src/contexts/SettingsContext.js:365 | the scheme's properties are written exactly when the scheme name is known |
| GlobalStyles.FontPart | src/contexts/SettingsContext.js:424-428 | the font family is the only property the font part may write |
| GlobalStyles.LayoutVars | src/contexts/SettingsContext.js:431-517 | the layout, motion, typography and visibility properties are always all written |
| GlobalStyles.MotionDurations | src/contexts/SettingsContext.js:444-461 | both durations are equal, and `0s` exactly when animations are off or motion is reduced |
| GlobalStyles.SchemeKeyLookup | src/contexts/SettingsContext.js:365-413 | a scheme property of the root comes from the scheme part alone |
| GlobalStyles.SchemeColoursWritten | src/contexts/SettingsContext.js:365-392 | the theme colours are written exactly for a known scheme, and come from its dark or light half |
| GlobalStyles.BodyMatchesRoot | src/contexts/SettingsContext.js:411-412 | the body gets background and text colours exactly when the root does, and the same ones |
| GlobalStyles.ShadeLookup | src/contexts/SettingsContext.js:360-362 | a ladder step of the root comes from the colour part alone |
| GlobalStyles.PrimaryShadeLookup | src/contexts/SettingsContext.js:360 | a primary step comes from the primary ladder alone |
| GlobalStyles.PrimaryLadderWritten | src/contexts/SettingsContext.js:335-360 | `--primary-500` is written exactly when the primary colour is hex, and equals the colour as set |
| GlobalStyles.TagWritesLookup | src/contexts/SettingsContext.js:595-626 | with distinct keys, a tag is written exactly when its content is truthy, with that content |
| GlobalStyles.TagAbsent | src/contexts/SettingsContext.js:595-626 | a tag no entry names is not written |
| GlobalStyles.ThemeClassOfModes | src/contexts/SettingsContext.js:315-320 | light, dark and auto always complete with class `light` or `dark`, dark exactly in dark mode or auto on a dark platform; an empty mode makes `classList.add` throw |
| GlobalStyles.AppliedWrites | src/contexts/SettingsContext.js:298-532 | a completed run writes the effective theme's class and the dark or light properties, body styles and branding, and custom CSS exactly when it is set |
| GlobalStyles.SystemPreferenceOnlyInAuto | src/contexts/SettingsContext.js:218-224 | outside auto mode the platform preference changes nothing that is written |
| GlobalStyles.TemplateWritesSchemeColours | src/contexts/SettingsContext.js:630-695 | after any preset template the theme colours are written |
| GlobalStyles.BrandingTitle | src/contexts/SettingsContext.js:537-541 | the title is set exactly when there is a site name, with ` - tagline` when there is a tagline |
| GlobalStyles.DescriptionTags | src/contexts/SettingsContext.js:554-626 | `og:type` and `twitter:card` are always written; the description reaches its three tags exactly when it is set |
| SettingsProvider.SettingsStore.constructor | src/contexts/SettingsContext.js:207-212 | the store starts from the loaded record, with every default key, nothing saved yet |
| SettingsProvider.SettingsStore.Effect | src/contexts/SettingsContext.js:214-216 | the effect saves exactly the current record and applies its styles |
| SettingsProvider.SettingsStore.UpdateSettings | src/contexts/SettingsContext.js:228-230 | the record becomes `old ⊕ patch` and keeps every default key |
| SettingsProvider.SettingsStore.ResetSettings | src/contexts/SettingsContext.js:232-235 | the record becomes the defaults and the saved entry is removed |
| SettingsProvider.SettingsStore.ApplyTemplate | src/contexts/SettingsContext.js:237-240 | applying a template merges its preset; an unknown one changes nothing |
| SettingsProvider.SettingsStore.ApplyColorScheme | src/contexts/SettingsContext.js:242-252 | a known scheme merges its patch; an unknown one changes nothing |
| SettingsProvider.SettingsStore.ImportSettings | src/contexts/SettingsContext.js:266-275 | returns true exactly when the text parses; then the record is `defaults ⊕ parsed`; otherwise unchanged |
| SettingsProvider.SettingsStore.ExportSettings | src/contexts/SettingsContext.js:254-264 | exports the current record as `portfolio-settings.json` through a link whose data decodes to the serialised text |
| SettingsProvider.ExportThenImport | src/contexts/SettingsContext.js:254-275 | the download holds the exported text, and importing it into any store gives that store the exported record as stringify and parse return it, which is the record itself when it holds no `-Infinity` |
| PortfolioProvider.Portfolio.constructor | src/App.js:39 | the document starts as the bundled dataset |
| PortfolioProvider.Portfolio.Mount | src/App.js:48-58 | a non-empty saved entry that parses replaces the document; one that fails to parse, or none, keeps it |
| PortfolioProvider.Portfolio.UpdateData | src/App.js:42-46 | the document becomes exactly `d`, and exactly `d` is saved |
| PortfolioProvider.ReloadAfterUpdate | src/App.js:42-58 | a reload after an update shows the updated document as stringify and parse return it; it is the document itself exactly when it holds no `-Infinity` |
| DashboardPage.Toggle | src/pages/Dashboard.js:85-91 | the key's flag is negated (absent counts as false) and every other flag is kept |
| DashboardPage.ToggleTwice | src/pages/Dashboard.js:85-91 | toggling twice restores the flag |
| DashboardPage.SectionKeyDiffersFromItemKey | src/pages/Dashboard.js:86 | a section's editor and an item's editor never share a key |
| DashboardPage.ItemKeysDistinct | src/pages/Dashboard.js:86 | items with different non-zero ids have different editor keys |
| DashboardPage.IntToStringInjective | src/pages/Dashboard.js:86 | different integers print differently |
| DashboardPage.FindById | src/pages/Dashboard.js:97 | `findIndex` finds the first element whose id equals `id`, or none; it throws exactly when a `null` element comes before any match |
| DashboardPage.SaveItem | src/pages/Dashboard.js:96-104 | a per-item save merges the update into the matching element only, keeps every other section, and throws when the section is not an array or a `null` is reached |
| DashboardPage.SaveSection | src/pages/Dashboard.js:105-112 | a section save sets the section to `old section ⊕ update` and keeps the other sections |
| DashboardPage.SaveItemChangesOnlyMatch | src/pages/Dashboard.js:96-104 | every element other than the match is unchanged |
| DashboardPage.SaveItemMissing | src/pages/Dashboard.js:98-99 | without a match the document is saved unchanged |
| DashboardPage.MaxId | src/pages/Dashboard.js:117 | `Math.max` of the ids (missing as 0) bounds every id and is one of them, or `-Infinity` for no items |
| DashboardPage.NextIdFresh | src/pages/Dashboard.js:117 | the new id is greater than every id present; for an empty section it is `-Infinity` |
| DashboardPage.FirstIdAfterReload | src/pages/Dashboard.js:117 | the first item of an empty section gets `-Infinity`, which the save writes as `null`; after a reload the next item gets id 1 |
| DashboardPage.NewItem | src/pages/Dashboard.js:118 | the appended item carries the new id |
| DashboardPage.AppendKeepsIdsDistinct | src/pages/Dashboard.js:115-118 | appending with the new id keeps ids distinct |
| DashboardPage.AddItem | src/pages/Dashboard.js:115-122 | the item is appended at the end with the new id and nothing else changes; a non-array section throws |
| DashboardPage.RemoveById | src/pages/Dashboard.js:127 | filtering removes exactly the elements with that id (or, for an `undefined` id, those without one) and keeps the rest in order; a `null` element throws |
| DashboardPage.UndefinedIdRemovesIdless | src/pages/Dashboard.js:127 | deleting with an `undefined` id, as the button of an item without an id does, removes exactly the elements without an id |
| DashboardPage.RemoveByIdIsFilter | src/pages/Dashboard.js:127 | on a list without `null`, deleting is `filter(item => item.id !== id)`: every copy of an element without the id stays, and none with it |
| DashboardPage.RemoveMissing | src/pages/Dashboard.js:127 | deleting an id no element has leaves the list unchanged |
| DashboardPage.DeleteResult | src/pages/Dashboard.js:124-131 | a delete replaces the section by the filtered list and keeps the other sections |
| DashboardPage.Dashboard.constructor | src/pages/Dashboard.js:69 | no editor is open at first |
| DashboardPage.Dashboard.ToggleEditMode | src/pages/Dashboard.js:85-91 | the edit map becomes the toggle of the key |
| DashboardPage.Dashboard.SaveData | src/pages/Dashboard.js:93-113 | on success the new document is saved and the editor toggled; a throw changes nothing |
| DashboardPage.Dashboard.AddNewItem | src/pages/Dashboard.js:115-122 | on success the document with the appended item is saved and the new item's editor toggled; a throw changes nothing |
| DashboardPage.Dashboard.DeleteItem | src/pages/Dashboard.js:124-131 | without confirmation nothing happens; confirmed, the filtered document is saved |
| DashboardPage.Dashboard.ExportData | src/pages/Dashboard.js:133-146 | exports the document as `portfolio-data.json` through a link whose data decodes to the serialised text |
| DashboardPage.Dashboard.ImportData | src/pages/Dashboard.js:147-162 | a parsed file replaces and saves the document outright; a parse failure changes nothing |
| UriEncoding.Utf8CharRoundTrip | src/pages/BlogDetail.js:39-64 | every character's UTF-8 bytes form one well-formed sequence that decodes back to it |
| UriEncoding.Utf8Char | src/pages/BlogDetail.js:39-64 | one character takes one to four bytes, and one byte, equal to the code, exactly when it is ASCII |
| UriEncoding.Utf8RoundTrip | src/pages/BlogDetail.js:39-64 | decoding the UTF-8 of a string gives the string |
| UriEncoding.UriRoundTrip | src/pages/BlogDetail.js:39-64 | `decodeURIComponent(encodeURIComponent(s)) == s` |
| UriEncoding.EncodedIsSafe | src/pages/BlogDetail.js:39-64 | an encoded component holds only unreserved characters and `%` |
| UriEncoding.EncodedHasNoDelimiters | src/pages/BlogDetail.js:39-64 | an encoded component contains no `&`, `=`, `?` or `#` |
| UriEncoding.DataUri | src/pages/Dashboard.js:133-136 | the export link starts with the JSON data prefix and has no comma after it |
| UriEncoding.DataUriRoundTrip | src/contexts/SettingsContext.js:254-257 | the link's data decodes to exactly the exported text |
| Base64.SextetRoundTrip | src/contexts/AuthContext.js:41 | each 6-bit value's character decodes back to it and is never the pad |
| Base64.Encode | src/contexts/AuthContext.js:41 | the encoding is four characters per started group of three bytes |
| Base64.DecodeEncode | src/contexts/AuthContext.js:41 | decoding an encoding gives the bytes back |
| Base64.EncodeAlphabet | src/contexts/AuthContext.js:41 | the encoding uses only the alphabet and a final padding |
| Base64.Btoa | src/contexts/AuthContext.js:41 | `btoa` succeeds exactly on text below U+0100 |
| Base64.AtobBtoa | src/contexts/AuthContext.js:41 | `atob(btoa(s)) == s` for such text |
| Auth.UserRecord | src/contexts/AuthContext.js:42-46 | the user record has exactly the username, role `admin` and the login time |
| Auth.TokenDecodes | src/contexts/AuthContext.js:41 | the token decodes back to `username:password:timestamp` |
| Auth.AuthStore.constructor | src/contexts/AuthContext.js:14-16 | the provider starts signed out and loading |
| Auth.AuthStore.Restore | src/contexts/AuthContext.js:24-33 | signed in whenever both entries are present, even when parsing the user entry then throws; with the parsed user otherwise; loading ends unless that parse throws; storage is not touched |
| Auth.AuthStore.Login | src/contexts/AuthContext.js:35-56 | succeeds exactly for `admin`/`admin123`, then signs in and saves token and user; otherwise returns the fixed error and changes nothing |
| Auth.AuthStore.Logout | src/contexts/AuthContext.js:58-63 | removes both entries and signs out |
| Auth.UserRecordSurvives | src/contexts/AuthContext.js:49 | the saved user record comes back from stringify and parse unchanged |
| Auth.LoginThenReload | src/contexts/AuthContext.js:24-56 | after a login, a reload over the same storage restores the same user |
| Auth.LogoutThenReload | src/contexts/AuthContext.js:24-63 | after a logout, a reload starts signed out |
| SkillsSection.AddTech | src/components/dashboard/SkillsSection.js:18-27 | a blank draft name adds nothing; otherwise one skill is appended with the draft's name and level |
| SkillsSection.AddSoft | src/components/dashboard/SkillsSection.js:40-45 | a blank or already present trimmed text adds nothing; otherwise the trimmed text is appended |
| SkillsSection.AddSoftKeepsDistinct | src/components/dashboard/SkillsSection.js:40-45 | adding keeps the soft skills duplicate-free, and the only new entry is the trimmed, non-empty text |
| SkillsSection.RemoveSoft | src/components/dashboard/SkillsSection.js:47-49 | removing a skill removes every copy of it and keeps every copy of the others, in order |
| SkillsSection.RemoveSoftFacts | src/components/dashboard/SkillsSection.js:47-49 | removal keeps the list duplicate-free, and removing an absent skill changes nothing |
| SkillsSection.SkillsEditor.constructor | src/components/dashboard/SkillsSection.js:7-10 | the lists start from the data or empty, the drafts empty with level 50 |
| SkillsSection.SkillsEditor.Reload | src/components/dashboard/SkillsSection.js:13-16 | new data replaces both lists and keeps the drafts |
| SkillsSection.SkillsEditor.EditTechDraft | src/components/dashboard/SkillsSection.js:131-147 | editing the draft changes only its name and level |
| SkillsSection.SkillsEditor.EditSoftDraft | src/components/dashboard/SkillsSection.js:221 | editing the soft draft changes only it |
| SkillsSection.SkillsEditor.AddTechSkill | src/components/dashboard/SkillsSection.js:18-27 | the list becomes `AddTech` of the draft, and the draft is reset exactly when a skill was added |
| SkillsSection.SkillsEditor.RemoveTechSkill | src/components/dashboard/SkillsSection.js:29-32 | exactly position `i` is removed |
| SkillsSection.SkillsEditor.UpdateTechSkillLevel | src/components/dashboard/SkillsSection.js:34-38 | only position `i`'s level changes; an index out of range throws and changes nothing |
| SkillsSection.SkillsEditor.AddSoftSkill | src/components/dashboard/SkillsSection.js:40-45 | the list becomes `AddSoft` of the draft, which is cleared exactly when something was added |
| SkillsSection.SkillsEditor.RemoveSoftSkill | src/components/dashboard/SkillsSection.js:47-49 | the list becomes `RemoveSoft` of it |
| SkillsSection.SkillsEditor.SaveSkills | src/components/dashboard/SkillsSection.js:51-61 | the saved payload is the two current lists |
| CommaLists.CommaField | src/components/dashboard/ExperienceSection.js:30-32 | a falsy field gives `[]`, a string its trimmed comma pieces, and any other truthy value throws |
| CommaLists.CommaPiecesShape | src/components/dashboard/ProjectsSection.js:21 | a non-empty text gives one more piece than it has commas, each trimmed |
| CommaLists.Prefill | src/components/dashboard/ExperienceSection.js:97 | the form shows the list joined with `, `, or nothing |
| CommaLists.PrefillRoundTrip | src/components/dashboard/ExperienceSection.js:21 | submitting an untouched prefilled list gives the list back when its entries are trimmed, comma-free and non-empty |
| CommaLists.PaddedRoundTrip | src/components/dashboard/ExperienceSection.js:31 | splitting a `, `-joined list at commas and trimming gives the list |
| ExperienceSection.ExperienceSubmit | src/components/dashboard/ExperienceSection.js:25-38 | the save keeps the form's fields and replaces `technologies` by its pieces; it throws exactly when `technologies` is truthy and not a string |
| ExperienceSection.ElementTexts | src/components/dashboard/ExperienceSection.js:97 | each element prints as `String(x)`, `null` as empty |
| ExperienceSection.TechnologiesPrefill | src/components/dashboard/ExperienceSection.js:97 | an absent list shows empty, an array its joined elements, and anything else throws |
| ExperienceSection.UntouchedTechnologies | src/components/dashboard/ExperienceSection.js:25-38 | an untouched prefilled technologies field saves the original list |
| ExperienceSection.AddExperienceDefaults | src/components/dashboard/ExperienceSection.js:214-222 | the new entry is appended with its default fields and the next id |
| Cards.Shown | src/pages/Projects.js:327 | a card shows the first `limit` entries, or all when there are fewer |
| Cards.MoreBadge | src/pages/Projects.js:343-347 | `+n more` appears exactly when entries are hidden, with `n` the number hidden |
| ProjectsSection.ProjectSubmit | src/components/dashboard/ProjectsSection.js:16-28 | the save keeps the form's fields, sets `tags` to the pieces and `featured` to a boolean true exactly for a true or `"true"` field |
| ProjectsSection.TagCount | src/components/dashboard/ProjectsSection.js:21 | a non-empty tags text gives one more tag than it has commas |
| ProjectsSection.AddProjectDefaults | src/components/dashboard/ProjectsSection.js:35-46 | the new project is appended with its default fields and the next id |
| ProjectsSection.LinkShownForStrings | src/components/dashboard/ProjectsSection.js:244 | a link is shown exactly for a non-empty URL other than `#` |
| ProjectsSection.CardTagsBound | src/components/dashboard/ProjectsSection.js:234 | a card shows at most three tags, the first ones |
| BlogSection.FullDate | src/components/dashboard/BlogSection.js:23 | the date part of `toISOString()` is ten characters with dashes at 4 and 7 and no `T` |
| BlogSection.TodayIsFullDate | src/components/dashboard/BlogSection.js:23 | today's date reads back as the year, month and day |
| BlogSection.PublishedAt | src/components/dashboard/BlogSection.js:22-23 | a truthy date is kept; otherwise today's date is used |
| BlogSection.BlogSubmit | src/components/dashboard/BlogSection.js:16-29 | the save keeps the form's fields, sets `tags` to the pieces and `publishedAt` as above; it throws exactly for truthy non-string tags |
| BlogSection.UndatedPostGetsToday | src/components/dashboard/BlogSection.js:22-23 | a post without a date gets today's |
| BlogSection.AddPostDefaults | src/components/dashboard/BlogSection.js:36-47 | the new post is appended with its default fields, today's date and the next id |
| BlogSection.StatusBadge | src/components/dashboard/BlogSection.js:227-236 | no badge for a falsy status; published and draft get their own style and others the neutral one; a non-string status throws |
| BlogSection.CardTagRow | src/components/dashboard/BlogSection.js:247-261 | no row without tags; otherwise the first three tags and the `+n more` badge |
| BlogSection.TagRowCounts | src/components/dashboard/BlogSection.js:247-261 | the shown and hidden counts add up to the number of tags |
| SocialMediaSection.PlatformCard | src/components/dashboard/SocialMediaSection.js:145-166 | `Not configured` exactly for a falsy field; otherwise a link to the value whose text is the value rendered as a React child, or a throw exactly when that child holds an object |
| SocialMediaSection.PlatformCardText | src/components/dashboard/SocialMediaSection.js:162 | a text URL shows as itself; `true` and `[]` give a link with no text; an object throws |
| SocialMediaSection.PlatformCards | src/components/dashboard/SocialMediaSection.js:33-55 | one card per platform in table order |
| SocialMediaSection.OtherLinesKept | src/components/dashboard/SocialMediaSection.js:176-179 | the lines shown are the non-blank lines, in order |
| SocialMediaSection.Href | src/components/dashboard/SocialMediaSection.js:183 | corrected: every line gets a target, the line itself when it has no `: ` |
| SocialMediaSection.ViewLine | src/components/dashboard/SocialMediaSection.js:181-192 | a line is a link exactly when it contains `http`, and keeps its text; the target is the corrected `Href`, not the code's `split(": ")[1]` |
| SocialMediaSection.BareUrlLosesHref | src/components/dashboard/SocialMediaSection.js:183 | as written, a bare URL gets no target; corrected, it links to itself |
| SocialMediaSection.LabelledLineHref | src/components/dashboard/SocialMediaSection.js:183 | a `name: url` line links to the URL, both as written and corrected |
| SocialMediaSection.OtherLinks | src/components/dashboard/SocialMediaSection.js:172-197 | the block is hidden for a falsy field, throws for a non-string, and otherwise shows the kept lines, with the corrected `Href` as each link's target |
| ResumeSection.TextOr | src/components/dashboard/ResumeSection.js:209-233 | a set field shows as a React child (a string as itself, `true` as nothing), otherwise the fallback text; it throws exactly for a field holding an object |
| ResumeSection.View | src/components/dashboard/ResumeSection.js:176-264 | the preview shows each link and text when set, else its fallback; experience goes through `String(v)` and the other cards are React children; it throws for a non-string key-skills field or an object in a card |
| ResumeSection.SummaryAsChild | src/components/dashboard/ResumeSection.js:210 | a summary that is a list of words shows them run together, without commas |
| ResumeSection.KeySkillPieces | src/components/dashboard/ResumeSection.js:252-264 | key skills show as the trimmed comma pieces; a string never makes them throw |
| ResumeSection.EmptyResume | src/components/dashboard/ResumeSection.js:199-213 | with no data every fallback shows |
| ProjectsPage.ResetFilters | src/pages/Projects.js:418-421 | reset sets category `all` and clears the search |
| ProjectsPage.SelectCategory | src/pages/Projects.js:180 | a category button changes only the category |
| ProjectsPage.SetSearch | src/pages/Projects.js:163 | typing changes only the search |
| ProjectsPage.FilteredProjectsSpec | src/pages/Projects.js:38-50 | the shown projects keep their order, and one is shown exactly when it matches the category and the case-insensitive search |
| ProjectsPage.EmptySearchMatches | src/pages/Projects.js:41-47 | the empty search matches every project |
| ProjectsPage.ResetShowsAll | src/pages/Projects.js:418-421 | after a reset every project is shown |
| ProjectsPage.StatisticsSpec | src/pages/Projects.js:447-483 | Completed and Featured count the matching projects; Technologies is the number of distinct tags across all projects |
| ProjectsPage.StatisticsOfAdded | src/pages/Projects.js:459-471 | adding a project moves each count by that project alone |
| ProjectsPage.CardTagRow | src/pages/Projects.js:327-347 | a project card shows up to four tags and `+n more` for the rest |
| BlogPage.AllTagsSpec | src/pages/Blog.js:21 | the topic list holds each tag of some post exactly once, as many as there are distinct tags |
| BlogPage.FilteredPostsSpec | src/pages/Blog.js:24-30 | the listed posts keep their order, and one is listed exactly when it matches the search and topic; so `n of m` has `n <= m` |
| BlogPage.SelectTag | src/pages/Blog.js:181 | clicking a tag changes only the topic |
| BlogPage.SetSearch | src/pages/Blog.js:86 | typing changes only the search |
| BlogPage.ClearFilters | src/pages/Blog.js:214-217 | clearing sets topic `all` and empties the search |
| BlogPage.ClearShowsAll | src/pages/Blog.js:214-217 | after clearing every post is listed |
| BlogPage.TagClickKeepsPost | src/pages/Blog.js:181 | clicking one of a post's tags keeps that post listed while it matches the search |
| BlogPage.OfferedTagShowsPosts | src/pages/Blog.js:102-106 | every offered topic lists some post when the search is empty |
| BlogDetail.ParseIntOfDecimal | src/pages/BlogDetail.js:24 | `parseInt` reads a decimal number back, ignoring a non-digit tail |
| BlogDetail.ParseIntOfNegative | src/pages/BlogDetail.js:24 | a minus sign gives the negative |
| BlogDetail.ParseIntOfIntToString | src/pages/BlogDetail.js:24 | `parseInt(String(i)) == i` |
| BlogDetail.ParseInt | src/pages/BlogDetail.js:24 | `parseInt` is a number exactly when, after leading whitespace and a sign, a decimal digit or a hex prefix with a digit follows; it is negative only after a `-` and never positive after one |
| BlogDetail.FindPost | src/pages/BlogDetail.js:24 | finds the first post whose id equals the number, or none when no post has it |
| BlogDetail.DetailPage | src/pages/BlogDetail.js:24-29 | the page shows the found post, or redirects to `/blog` when the parameter is not a number or no post has it |
| BlogDetail.ListLinkShowsPost | src/pages/BlogDetail.js:24-29 | the list's link for a post with an integer id opens a post with that id |
| BlogDetail.ShareText | src/pages/BlogDetail.js:37 | the share text is the fixed prefix followed by the title |
| BlogDetail.TwoParameterLink | src/pages/BlogDetail.js:39-46 | a link with two encoded pairs gives both values back to a reader of its query |
| BlogDetail.TwitterUrlCarries | src/pages/BlogDetail.js:39-46 | the Twitter link's `text` and `url` parameters read back as the share text and the page address |
| BlogDetail.OneParameterLink | src/pages/BlogDetail.js:48-64 | a link with one encoded pair gives its value back |
| BlogDetail.SingleParameterUrlsCarry | src/pages/BlogDetail.js:48-64 | the Facebook `u` and LinkedIn `url` parameters read back as the page address |
| BlogDetail.RelatedPostsSpec | src/pages/BlogDetail.js:67-71 | at most three related posts, the first in blog order, each another post sharing a tag, never the post itself |
| Navbar.ToggledMode | src/components/Navbar.js:32-43 | the toggle writes `light` or `dark`, never `auto` |
| Navbar.TogglePatch | src/components/Navbar.js:38-41 | the toggle's patch touches only `themeMode` |
| Navbar.ToggleFlipsTheme | src/components/Navbar.js:32-43 | after a toggle the page is dark exactly when it was not |
| Navbar.ToggleTwice | src/components/Navbar.js:32-43 | toggling twice restores the look, and a light or dark mode |
| Navbar.ToggleTheme | src/components/Navbar.js:32-43 | on the store, only `themeMode` changes, the look flips, and every default key stays |
| Navbar.LogoHeight | src/components/Navbar.js:134-139 | `h-8` exactly for small, `h-12` exactly for large, else `h-10` |
| Navbar.Or | src/components/Navbar.js:159 | `a \|\| b` is `a` when it is set and truthy, `b` otherwise |
| Navbar.Logo | src/components/Navbar.js:130-140 | the image shows exactly when `logoUrl` is set, with a non-empty alternative text (the site name or `Logo`) |
| Navbar.LogoValue | src/components/Navbar.js:159 | the chosen value is `logoText`, else `siteName`, else `Portfolio`, and is truthy |
| Navbar.LogoText | src/components/Navbar.js:147-159 | the caption shows exactly when `showLogoText` is set, as the chosen value rendered as a React child; it throws exactly for an object; a chosen string or number is never blank, a chosen `true` renders nothing |
| Navbar.LogoTextOfStrings | src/components/Navbar.js:159 | when `logoText` and `siteName` are text or absent, a shown caption is never blank |
| Navbar.OneActiveLink | src/components/Navbar.js:171-181 | at most one link is active, and one exactly on the six pages |
| Navbar.NavigationBar.constructor | src/components/Navbar.js:73-74 | the bar starts unscrolled with the menu closed |
| Navbar.NavigationBar.OnScroll | src/components/Navbar.js:100-106 | `scrolled` holds exactly when the page is more than 50 pixels down |
| Navbar.NavigationBar.HandleLogout | src/components/Navbar.js:109-112 | logging out signs out, removes both entries and closes the menu |
| Navbar.TransparentOnlyAtTopOfHome | src/components/Navbar.js:118-124 | the bar is see-through exactly when unscrolled on `/` |

## Left out

- Browser side effects are not modelled: DOM writes, `classList` beyond its
  rejection of bad tokens, the meta, favicon and style elements, toasts, the
  clipboard, `window.open`, and the download click. Their effect is the value
  the model returns.
- `localStorage` is a map or a saved-value field.
- `JSON.stringify` and the text it produces are not modelled. The export
  methods take that text as a parameter.
- PortfolioProvider.ReloadAfterUpdate: takes the parse of the saved text to be
  `Js.Stringified` of the document, because the text itself is not modelled.
  That is the document with every `-Infinity` written as `null`, such as the
  id `NextId` gives the first item of an empty section.
- SettingsContext.ReloadAfterSave and SettingsProvider.ExportThenImport make
  the same assumption about the saved or exported settings text. A settings
  record only holds `-Infinity` if an update puts it there, so in practice it
  comes back unchanged.
- `JSON.parse` is a parameter: its outcome, or `None` when it throws.
- `FileReader` is not modelled, and neither is the path where no file was
  chosen.
- The `matchMedia` change listener, `dispatchEvent("settingsUpdated")` and the
  `--settings-update-time` timestamp are not modelled, because they are event
  plumbing.
- Numbers are integers: floating point and `NaN` are not modelled. A
  JavaScript number holds an integer exactly only below 2^53, and `String`
  writes it in plain decimal only below 10^21. So
  BlogDetail.ParseIntOfIntToString and BlogDetail.ListLinkShowsPost hold only
  for ids below 10^21 (`String(1e21)` is `"1e+21"`, which `parseInt` reads as
  1), and DashboardPage.NextIdFresh only for ids below 2^53, above which
  `max + 1` can equal `max`.
  - DashboardPage.AddItem: requires numeric ids in an array section, because
    `Math.max` coerces any other id (`"7"` reads as 7, `true` as 1) or turns it
    into `NaN`, and that coercion is not modelled.
- A guard `{x && (…)}` whose field is the number `0` makes React render the
  text `0`. The model shows nothing there, as for every other falsy value.
  This affects ResumeSection.View, SocialMediaSection.OtherLinks, Navbar.Logo,
  Navbar.LogoText, BlogSection.StatusBadge and the featured badge and links of
  ProjectsSection. Only an imported document can put a `0` there.
- Strict equality on objects and arrays (reference identity) is modelled as
  value equality. It matters only for ids that are objects.
- Key order of objects and the prototype chain are not modelled.
- React's scheduling is not modelled: batching, the bail-out on equal state,
  and re-renders.
- Aliasing is not modelled:
  - the in-place `newData[section][index] = …` assignment;
  - `push` on the shared array;
  - `updateTechSkillLevel` mutating the shared element.

  The model returns fresh values instead.
- Loading flags are not modelled: `loading` in `App.js` and the `isLoading`
  flags of the editors.
- The template metadata (`templates`) and the concrete colours of each scheme
  are kept only as far as the stated properties need them.
- BlogSection.FullDate: the year must be below 10000, because `toISOString`
  writes wider years with a sign.
- SkillsSection.AddTech: models only the name and level fields of a skill; a
  level that `parseInt` makes `NaN` is not modelled.
- ProjectsPage.FilteredProjectsSpec: a project without a title, description or
  tag list (which throws in the page) is not modelled.
- BlogPage.FilteredPostsSpec: posts without a title, an excerpt or a `tags`
  array (on which the page throws) are not modelled.
- UriEncoding.UriRoundTrip: lone surrogates, on which the browser throws, cannot
  occur, because Dafny characters are Unicode scalar values.
- `toLowerCase` and `toUpperCase` (the status badge's capital) are ASCII-only,
  and `trim` uses ECMAScript's whitespace set.
- Base64.Atob: the strict RFC 4648 decoding, used only for the round trip with
  `btoa`. The browser's `atob` also skips ASCII whitespace and accepts missing
  padding.
- The layout-only parts are not modelled: page animations, the mobile menu's
  markup, the Education, Personal Info and Testimonials forms (which pass their
  data straight to `saveData`), and the settings panel's controls (each a
  one-key `updateSettings`).

## Findings

| source | as written | input that shows it | evidently intended | confidence | as-written member | corrected member |
|---|---|---|---|---|---|---|
| src/components/dashboard/SocialMediaSection.js:183 | `link.includes(":") ? link.split(": ")[1] : link` | `https://x.io`: it contains `:` but no `: `, so the target is `undefined` and the link goes nowhere | take the part after `: ` when there is one, else the line itself | not executed | SocialMediaSection.BareUrlLosesHref | SocialMediaSection.Href |
