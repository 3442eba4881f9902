/**
 * The theme provider: which theme a page starts in, how the chosen theme is
 * applied to the document and remembered, and when a change of the
 * system's colour scheme is followed.
 */
module ThemeProviding {
  import opened Wrappers
  import opened BrowserStorage

  datatype Theme = Light | Dark

  const DEFAULT_STORAGE_KEY := "helia-ui-theme"
  const DEFAULT_THEME := "system"

  /** The class name and stored value of a theme. */
  function ThemeName(t: Theme): (name: string)
    ensures name == "light" || name == "dark"
  {
    match t
    case Light => "light"
    case Dark => "dark"
  }

  /** The theme a stored or default value names, if it names one. */
  function ParseTheme(s: string): (t: Option<Theme>)
    ensures t.Some? <==> s == "light" || s == "dark"
    ensures t.Some? ==> ThemeName(t.value) == s
  {
    if s == "dark" then Some(Dark) else if s == "light" then Some(Light) else None
  }

  /**
   * The initial theme: a stored "dark" or "light" wins; otherwise a
   * "system" default follows the system preference; otherwise a "dark"
   * default gives dark and any other default gives light.
   */
  function InitialTheme(stored: Option<string>, defaultTheme: string, systemDark: bool): Theme {
    if stored.Some? && ParseTheme(stored.value).Some? then ParseTheme(stored.value).value
    else if defaultTheme == "system" then (if systemDark then Dark else Light)
    else if defaultTheme == "dark" then Dark
    else Light
  }

  /** A stored theme decides, whatever the default and the system preference. */
  lemma StoredThemeWins(t: Theme, defaultTheme: string, systemDark: bool)
    ensures InitialTheme(Some(ThemeName(t)), defaultTheme, systemDark) == t
  {
  }

  /** Without a valid stored theme, a "system" default follows the system preference. */
  lemma SystemDecidesWithoutStoredTheme(stored: Option<string>, systemDark: bool)
    requires stored.None? || ParseTheme(stored.value).None?
    ensures InitialTheme(stored, "system", systemDark) == (if systemDark then Dark else Light)
  {
  }

  /** Without a valid stored theme and with any other default, only "dark" gives dark. */
  lemma DefaultDecidesOtherwise(stored: Option<string>, defaultTheme: string, systemDark: bool)
    requires stored.None? || ParseTheme(stored.value).None?
    requires defaultTheme != "system"
    ensures InitialTheme(stored, defaultTheme, systemDark) == Dark <==> defaultTheme == "dark"
  {
  }

  /** The meta theme-colour of a theme. */
  function ThemeColor(t: Theme): (color: string)
    ensures t == Dark ==> color == "#0d0d0d"
    ensures t == Light ==> color == "#ffffff"
  {
    if t == Dark then "#0d0d0d" else "#ffffff"
  }

  /**
   * The listener's guard `!storedTheme || storedTheme === "system"`: no
   * stored value, the empty string, or "system".
   */
  predicate FollowsSystem(stored: Option<string>) {
    stored.None? || stored.value == [] || stored.value == "system"
  }

  /** A stored theme name never lets the listener follow the system. */
  lemma StoredThemeStopsListener(t: Theme)
    ensures !FollowsSystem(Some(ThemeName(t)))
  {
  }

  /** The parts of the document the provider touches: the root's classes and the theme-colour meta tag. */
  class Document {
    var rootClasses: set<string>
    /** The meta tag's content, or None when the page has no such tag. */
    var themeColorMeta: Option<string>

    constructor (classes: set<string>, meta: Option<string>)
      ensures rootClasses == classes && themeColorMeta == meta
    {
      rootClasses := classes;
      themeColorMeta := meta;
    }
  }

  class ThemeProvider {
    var theme: Theme
    const storageKey: string

    /** The state initialiser, reading the stored value once. */
    constructor (store: LocalStorage, defaultTheme: string, key: string, systemDark: bool)
      ensures storageKey == key
      ensures theme == InitialTheme(store.GetItem(key), defaultTheme, systemDark)
    {
      storageKey := key;
      theme := InitialTheme(store.GetItem(key), defaultTheme, systemDark);
    }

    /**
     * The apply effect: the root keeps its other classes and carries
     * exactly one of light/dark, the current theme; the theme is stored;
     * an existing meta tag gets the theme's colour.
     */
    method ApplyTheme(store: LocalStorage, doc: Document)
      modifies store, doc
      ensures doc.rootClasses == old(doc.rootClasses) - {"light", "dark"} + {ThemeName(theme)}
      ensures ("dark" in doc.rootClasses <==> theme == Dark) && ("light" in doc.rootClasses <==> theme == Light)
      ensures store.items == old(store.items)[storageKey := ThemeName(theme)]
      ensures old(doc.themeColorMeta).Some? ==> doc.themeColorMeta == Some(ThemeColor(theme))
      ensures old(doc.themeColorMeta).None? ==> doc.themeColorMeta == None
      ensures !FollowsSystem(store.GetItem(storageKey))
    {
      doc.rootClasses := doc.rootClasses - {"light", "dark"};
      doc.rootClasses := doc.rootClasses + {ThemeName(theme)};
      store.SetItem(storageKey, ThemeName(theme));
      if doc.themeColorMeta.Some? {
        doc.themeColorMeta := Some(ThemeColor(theme));
      }
      StoredThemeStopsListener(theme);
    }

    /** The system-change listener: follow the system only when no theme has been chosen. */
    method HandleSystemChange(store: LocalStorage, systemDark: bool)
      modifies this
      ensures FollowsSystem(store.GetItem(storageKey)) ==> theme == (if systemDark then Dark else Light)
      ensures !FollowsSystem(store.GetItem(storageKey)) ==> theme == old(theme)
    {
      var stored := store.GetItem(storageKey);
      if FollowsSystem(stored) {
        theme := if systemDark then Dark else Light;
      }
    }

    /** `setTheme` as exposed through the context. */
    method SetTheme(t: Theme)
      modifies this
      ensures theme == t
    {
      theme := t;
    }
  }

  /**
   * Mounting the provider: the initial theme is resolved and applied. From
   * then on a reload resolves to the same theme whatever the default and
   * the system preference, and a change of the system's scheme is ignored.
   */
  method MountTheme(store: LocalStorage, doc: Document, defaultTheme: string, key: string,
                    systemDark: bool, laterDark: bool)
    returns (initial: Theme, reloaded: Theme, afterSystemChange: Theme)
    modifies store, doc
    ensures initial == InitialTheme(old(store.GetItem(key)), defaultTheme, systemDark)
    ensures store.GetItem(key) == Some(ThemeName(initial))
    ensures reloaded == initial && afterSystemChange == initial
  {
    var provider := new ThemeProvider(store, defaultTheme, key, systemDark);
    initial := provider.theme;
    provider.ApplyTheme(store, doc);
    reloaded := InitialTheme(store.GetItem(key), defaultTheme, laterDark);
    StoredThemeWins(initial, defaultTheme, laterDark);
    provider.HandleSystemChange(store, laterDark);
    afterSystemChange := provider.theme;
  }
}
