/** The site's navigation bar (src/components/Navbar.js): the theme toggle,
    the logo, the scroll state and the active link. */
module Navbar {
  import opened Js
  import opened SettingsContext
  import opened GlobalStyles
  import opened SettingsProvider
  import Auth

  // ---------------------------------------------------------------- theme toggle

  /** The mode the toggle writes: the opposite of the system preference in
      `auto` mode, and otherwise `light` when the current theme is dark and
      `dark` for anything else. */
  function ToggledMode(themeMode: Option<Json>, systemDark: bool): (r: string)
    ensures r == "light" || r == "dark"
  {
    if themeMode == Some(JStr("auto")) then (if systemDark then "light" else "dark")
    else if IsDark(EffectiveTheme(themeMode, systemDark)) then "light"
    else "dark"
  }

  /** The one-key patch `toggleTheme` hands to `updateSettings`. */
  function TogglePatch(themeMode: Option<Json>, systemDark: bool): (r: Record)
    ensures r.Keys == {"themeMode"}
  {
    map["themeMode" := JStr(ToggledMode(themeMode, systemDark))]
  }

  /** The toggle never leaves the mode at `auto`, and the page it shows is
      always the other one: dark becomes light and anything else dark. */
  lemma ToggleFlipsTheme(themeMode: Option<Json>, systemDark: bool)
    ensures ToggledMode(themeMode, systemDark) != "auto"
    ensures IsDark(EffectiveTheme(Some(JStr(ToggledMode(themeMode, systemDark))), systemDark))
        <==> !IsDark(EffectiveTheme(themeMode, systemDark))
  {
  }

  /** Toggling twice comes back to the same look, and to the same mode when
      the mode was `light` or `dark`. */
  lemma ToggleTwice(themeMode: Option<Json>, systemDark: bool)
    ensures var once := Some(JStr(ToggledMode(themeMode, systemDark)));
      IsDark(EffectiveTheme(Some(JStr(ToggledMode(once, systemDark))), systemDark)) <==> IsDark(EffectiveTheme(themeMode, systemDark))
    ensures themeMode == Some(JStr("light")) || themeMode == Some(JStr("dark")) ==>
      Some(JStr(ToggledMode(Some(JStr(ToggledMode(themeMode, systemDark))), systemDark))) == themeMode
  {
    ToggleFlipsTheme(themeMode, systemDark);
    ToggleFlipsTheme(Some(JStr(ToggledMode(themeMode, systemDark))), systemDark);
  }

  /** `toggleTheme()` on the settings store: only `themeMode` changes, and
      the look switches between light and dark. */
  method ToggleTheme(store: SettingsStore, systemDark: bool)
    requires store.Valid()
    modifies store
    ensures store.Valid()
    ensures store.settings == Merge(old(store.settings), TogglePatch(Get(old(store.settings), "themeMode"), systemDark))
    ensures forall k :: k in old(store.settings) && k != "themeMode" ==> k in store.settings && store.settings[k] == old(store.settings)[k]
    ensures IsDark(EffectiveTheme(Get(store.settings, "themeMode"), systemDark))
        <==> !IsDark(EffectiveTheme(Get(old(store.settings), "themeMode"), systemDark))
    ensures store.saved == old(store.saved)
  {
    var mode := Get(store.settings, "themeMode");
    ToggleFlipsTheme(mode, systemDark);
    store.UpdateSettings(TogglePatch(mode, systemDark));
  }

  // ---------------------------------------------------------------- logo

  /** `a || b` on two fields, with the fallback at the end. */
  function Or(v: Option<Json>, fallback: Json): (r: Json)
    ensures v.Some? && Truthy(v.value) ==> r == v.value
    ensures !(v.Some? && Truthy(v.value)) ==> r == fallback
  {
    if v.Some? && Truthy(v.value) then v.value else fallback
  }

  /** The logo image's height class. */
  function LogoHeight(s: Record): (r: string)
    ensures r == "h-8" <==> Get(s, "logoSize") == Some(JStr("small"))
    ensures r == "h-12" <==> Get(s, "logoSize") == Some(JStr("large"))
    ensures r == "h-8" || r == "h-12" || r == "h-10"
  {
    var size := Get(s, "logoSize");
    if size == Some(JStr("small")) then "h-8"
    else if size == Some(JStr("large")) then "h-12"
    else "h-10"
  }

  datatype LogoImage = LogoImage(src: Json, alt: Json, height: string)

  /** The logo image, present only when `logoUrl` is set; its alternative
      text is the site name, or `Logo`. */
  function Logo(s: Record): (r: Option<LogoImage>)
    ensures r.Some? <==> TruthyField(s, "logoUrl")
    ensures r.Some? ==> r.value.src == s["logoUrl"] && Truthy(r.value.alt) && r.value.height == LogoHeight(s)
    ensures r.Some? && !TruthyField(s, "siteName") ==> r.value.alt == JStr("Logo")
  {
    if TruthyField(s, "logoUrl") then Some(LogoImage(s["logoUrl"], Or(Get(s, "siteName"), JStr("Logo")), LogoHeight(s)))
    else None
  }

  /** The value chosen for the text beside the logo: `logoText`, else
      `siteName`, else `Portfolio`. */
  function LogoValue(s: Record): (r: Json)
    ensures Truthy(r)
    ensures TruthyField(s, "logoText") ==> r == s["logoText"]
    ensures !TruthyField(s, "logoText") && TruthyField(s, "siteName") ==> r == s["siteName"]
    ensures !TruthyField(s, "logoText") && !TruthyField(s, "siteName") ==> r == JStr("Portfolio")
  {
    Or(Get(s, "logoText"), Or(Get(s, "siteName"), JStr("Portfolio")))
  }

  /** The text beside the logo: hidden, the chosen value rendered as a React
      child, or a throw when that child holds a plain object. */
  datatype LogoCaption = Hidden | Caption(text: string) | CaptionThrows

  /** The caption, shown only when `showLogoText` is set. A chosen string or
      number is never blank; a chosen `true` renders as nothing. */
  function LogoText(s: Record): (r: LogoCaption)
    ensures r.Hidden? <==> !TruthyField(s, "showLogoText")
    ensures r.CaptionThrows? <==> TruthyField(s, "showLogoText") && HoldsObject(LogoValue(s))
    ensures r.Caption? ==> ChildText(LogoValue(s)) == Some(r.text)
    ensures r.Caption? && (LogoValue(s).JStr? || LogoValue(s).JNum? || LogoValue(s).JNegInfinity?) ==> r.text != ""
    ensures r.Caption? && LogoValue(s).JBool? ==> r.text == ""
  {
    if !TruthyField(s, "showLogoText") then Hidden
    else
      var v := LogoValue(s);
      match ChildText(v)
      case None => CaptionThrows
      case Some(text) =>
        Caption(text)
  }

  /** With `logoText` and `siteName` each absent or text, a shown caption is
      never blank. */
  lemma LogoTextOfStrings(s: Record)
    requires "logoText" in s ==> s["logoText"].JStr?
    requires "siteName" in s ==> s["siteName"].JStr?
    requires TruthyField(s, "showLogoText")
    ensures LogoText(s).Caption? && LogoText(s).text != ""
  {
  }

  // ---------------------------------------------------------------- links

  datatype NavItem = NavItem(name: string, path: string)

  const NavItems: seq<NavItem> := [
    NavItem("Home", "/"),
    NavItem("About", "/about"),
    NavItem("Projects", "/projects"),
    NavItem("Services", "/services"),
    NavItem("Blog", "/blog"),
    NavItem("Contact", "/contact")
  ]

  /** A link is highlighted when its path is the current pathname. */
  predicate Active(item: NavItem, pathname: string) {
    pathname == item.path
  }

  /** The six paths differ, so at most one link is highlighted, and exactly
      one on the pages they name. */
  lemma OneActiveLink(pathname: string)
    ensures forall i, j :: 0 <= i < j < |NavItems| ==> !(Active(NavItems[i], pathname) && Active(NavItems[j], pathname))
    ensures (exists i :: 0 <= i < |NavItems| && Active(NavItems[i], pathname)) <==>
      pathname in {"/", "/about", "/projects", "/services", "/blog", "/contact"}
  {
    assert forall i, j :: 0 <= i < j < |NavItems| ==> NavItems[i].path != NavItems[j].path;
    if pathname in {"/", "/about", "/projects", "/services", "/blog", "/contact"} {
      var k := if pathname == "/" then 0 else if pathname == "/about" then 1
        else if pathname == "/projects" then 2 else if pathname == "/services" then 3
        else if pathname == "/blog" then 4 else 5;
      assert Active(NavItems[k], pathname);
    }
  }

  // ---------------------------------------------------------------- the bar

  /** The navigation bar's own state. */
  class NavigationBar {
    /** The page has been scrolled past the threshold. */
    var scrolled: bool
    /** The mobile menu is open. */
    var isOpen: bool

    constructor ()
      ensures !scrolled && !isOpen
    {
      scrolled := false;
      isOpen := false;
    }

    /** The scroll listener: `scrolled` holds exactly when the page is more
        than 50 pixels down. */
    method OnScroll(scrollY: int)
      modifies this
      ensures scrolled <==> scrollY > 50
      ensures isOpen == old(isOpen)
    {
      scrolled := scrollY > 50;
    }

    /** `handleLogout`: signs out and closes the menu. */
    method HandleLogout(auth: Auth.AuthStore)
      modifies this, auth
      ensures !auth.isAuthenticated && auth.user.None?
      ensures auth.storage == old(auth.storage) - {Auth.TokenKey, Auth.UserKey}
      ensures !isOpen && scrolled == old(scrolled)
    {
      auth.Logout();
      isOpen := false;
    }

    /** The bar is see-through only at the top of the home page. */
    predicate Transparent(pathname: string)
      reads this
    {
      !(scrolled || pathname != "/")
    }
  }

  /** On any page but the home page the bar is never see-through, and on the
      home page it is exactly until the page scrolls. */
  lemma TransparentOnlyAtTopOfHome(bar: NavigationBar, pathname: string)
    ensures bar.Transparent(pathname) <==> !bar.scrolled && pathname == "/"
  {
  }
}
