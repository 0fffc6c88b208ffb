/** The settings store of `SettingsProvider` (src/contexts/SettingsContext.js):
    the record the site reads, what it has saved in local storage, and the
    operations it offers its consumers. */
module SettingsProvider {
  import opened Js
  import opened SettingsContext
  import opened GlobalStyles
  import opened UriEncoding

  class SettingsStore {
    /** The current settings record. */
    var settings: Settings
    /** The record this store last handed to `JSON.stringify` and saved
        under `StorageKey`; `None` before its first save and after a reset
        removes the entry. */
    var saved: Option<Settings>

    /** Every record the store holds has all the default keys. */
    predicate Valid()
      reads this
    {
      HasDefaultKeys(settings)
    }

    /** Mounting the provider: the record is read from `saved`, whose parse
        is `parsed`. A parse failure escapes from the initialiser and the
        provider never mounts, so the constructor asks for a record. The
        store writes nothing until its first effect. */
    constructor (entry: Option<string>, parsed: Option<Json>)
      requires InitialSettings(entry, parsed).Some?
      ensures Valid()
      ensures settings == InitialSettings(entry, parsed).value
      ensures saved == None
    {
      settings := InitialSettings(entry, parsed).value;
      saved := None;
    }

    /** The effect that follows every change of the record: it is saved, and
        the page styles are derived from it (`systemDark` is the platform's
        preference at that moment; the same derivation runs again whenever
        the preference changes in auto mode). */
    method Effect(systemDark: bool) returns (styling: Styling)
      modifies this
      ensures settings == old(settings)
      ensures saved == Some(settings)
      ensures styling == ApplyGlobalStyles(settings, systemDark)
    {
      saved := Some(settings);
      styling := ApplyGlobalStyles(settings, systemDark);
    }

    /** `updateSettings(patch)`: the patch is spread over the record. */
    method UpdateSettings(patch: Record)
      requires Valid()
      modifies this
      ensures Valid()
      ensures settings == Merge(old(settings), patch)
      ensures saved == old(saved)
    {
      settings := Merge(settings, patch);
    }

    /** `resetSettings()`: the defaults, and the saved entry removed. */
    method ResetSettings()
      modifies this
      ensures Valid()
      ensures settings == DefaultSettings
      ensures saved == None
    {
      settings := DefaultSettings;
      saved := None;
    }

    /** `applyTemplate(name)`: the template's preset is merged in; an
        unknown template merges nothing. */
    method ApplyTemplate(name: string)
      requires Valid()
      modifies this
      ensures Valid()
      ensures settings == Merge(old(settings), TemplatePatch(name))
      ensures name !in TemplateNames ==> settings == old(settings)
      ensures saved == old(saved)
    {
      UpdateSettings(TemplatePatch(name));
    }

    /** `applyColorScheme(name)`: a known scheme sets its name and its three
        colours; an unknown name changes nothing. */
    method ApplyColorScheme(name: string)
      requires Valid()
      modifies this
      ensures Valid()
      ensures name in SchemeNames ==> settings == Merge(old(settings), ColorSchemePatch(name).value)
      ensures name !in SchemeNames ==> settings == old(settings)
      ensures saved == old(saved)
    {
      var patch := ColorSchemePatch(name);
      if patch.Some? {
        UpdateSettings(patch.value);
      }
    }

    /** `importSettings(text)`, where `parsed` is the outcome of parsing the
        text: on success the parsed object is spread over the defaults and
        true is returned; on failure nothing changes and false is returned. */
    method ImportSettings(parsed: Option<Json>) returns (ok: bool)
      modifies this
      ensures ok <==> parsed.Some?
      ensures ok ==> settings == ImportedSettings(parsed).value
      ensures !ok ==> settings == old(settings)
      ensures saved == old(saved)
      ensures old(Valid()) ==> Valid()
    {
      var r := ImportedSettings(parsed);
      if r.Some? {
        settings := r.value;
        ok := true;
      } else {
        ok := false;
      }
    }

    /** `exportSettings()`: the record to be serialised, the name it is
        downloaded under and the link that downloads it, where `text` stands
        for the serialised record. Nothing changes. */
    method ExportSettings(text: string) returns (payload: Json, fileName: string, href: string)
      ensures payload == JObj(settings)
      ensures fileName == ExportFileName
      ensures href == DataUri(text)
      ensures DecodeUriComponent(href[|JsonDataPrefix|..]) == Some(text)
    {
      payload := JObj(settings);
      fileName := ExportFileName;
      href := DataUri(text);
      DataUriRoundTrip(text);
    }
  }

  /** An exported record imported into any store gives that store the
      exported record back: the downloaded file holds `text`, the
      `JSON.stringify` text of the payload, whose parse is
      `Stringified(payload)`; a record without `-Infinity` comes back exactly. */
  method ExportThenImport(source: SettingsStore, target: SettingsStore, text: string) returns (downloaded: Option<string>)
    requires source.Valid()
    modifies target
    ensures downloaded == Some(text)
    ensures target.settings == Stringified(JObj(old(source.settings))).fields
    ensures NoNegInfinity(JObj(old(source.settings))) ==> target.settings == old(source.settings)
  {
    var payload, _, href := source.ExportSettings(text);
    downloaded := DecodeUriComponent(href[|JsonDataPrefix|..]);
    StringifiedObjectKeys(source.settings);
    var ok := target.ImportSettings(Some(Stringified(payload)));
    ExportImportRoundTrip(Stringified(JObj(old(source.settings))).fields);
    if NoNegInfinity(JObj(old(source.settings))) {
      StringifiedKeeps(JObj(old(source.settings)));
    }
  }
}
