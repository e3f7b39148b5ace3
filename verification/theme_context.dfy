/** The theme preference store (src/contexts/ThemeContext.tsx): a light/dark mode and a
    four-slot colour palette, restored from durable storage at load and mirrored, after every
    change, into storage, the document root's class list and its style variables. The browser
    is modelled as fields of the provider: the two storage entries, the root's classes and its
    style variables. */
module ThemeContext {
  import opened Wrappers
  import Hooks
  import ColorConversion

  datatype Theme = Light | Dark

  /** The mode as it is stored and used as a class name. */
  function ThemeName(t: Theme): string
  {
    match t
    case Light => "light"
    case Dark => "dark"
  }

  /** `toggleTheme`'s update. */
  function Toggled(t: Theme): (r: Theme)
    ensures r != t
  {
    if t == Light then Dark else Light
  }

  /** Initial mode: a stored "dark" or "light" wins; otherwise the platform's dark-scheme hint
      decides; otherwise light. */
  function InitialTheme(stored: Option<string>, prefersDark: bool): Theme
  {
    if stored == Some("dark") then Dark
    else if stored == Some("light") then Light
    else if prefersDark then Dark
    else Light
  }

  datatype Slot = Primary | Secondary | Accent | Background

  datatype Palette = Palette(primary: string, secondary: string, accent: string, background: string)
  {
    function Get(slot: Slot): string
    {
      match slot
      case Primary => primary
      case Secondary => secondary
      case Accent => accent
      case Background => background
    }

    /** `{ ...prev, [key]: value }`. */
    function With(slot: Slot, value: string): (p: Palette)
      ensures p.Get(slot) == value
      ensures forall other :: other != slot ==> p.Get(other) == Get(other)
    {
      match slot
      case Primary => this.(primary := value)
      case Secondary => this.(secondary := value)
      case Accent => this.(accent := value)
      case Background => this.(background := value)
    }
  }

  const DefaultColors: Palette := Palette("#d4a533", "#e8dcc8", "#e67e22", "#faf8f5")
  const DarkDefaultColors: Palette := Palette("#e4b843", "#2d2a24", "#e67e22", "#1a1816")

  /** What the palette storage entry holds: nothing, text `JSON.parse` rejects, or a palette. */
  datatype StoredColors = Missing | Malformed | Stored(palette: Palette)

  /** Initial palette: the stored one when it parses, the light defaults otherwise — whatever
      the mode. */
  function InitialColors(stored: StoredColors): Palette
  {
    match stored
    case Stored(p) => p
    case _ => DefaultColors
  }

  /** `resetColors`' target: the defaults of the current mode. */
  function ResetPalette(t: Theme): Palette
  {
    if t == Dark then DarkDefaultColors else DefaultColors
  }

  /** The theme effect on the root's classes: the other mode's marker goes, this one's comes. */
  function ThemeClasses(classes: set<string>, t: Theme): set<string>
  {
    classes - {"light", "dark"} + {ThemeName(t)}
  }

  /** The four style-variable writes of the palette effect, given the converted colours. */
  function StyleWrites(vars: map<string, string>, primary: string, accent: string): map<string, string>
  {
    vars["--primary" := primary]["--ring" := primary]["--golden" := primary]["--accent" := accent]
  }

  /** The palette effect on the root's style variables. */
  function PaletteVars(vars: map<string, string>, p: Palette): map<string, string>
  {
    StyleWrites(vars, ColorConversion.HexToHsl(p.primary), ColorConversion.HexToHsl(p.accent))
  }

  /** Toggling flips the mode, and twice restores it. */
  lemma ToggleInvolutive(t: Theme)
    ensures Toggled(t) != t
    ensures Toggled(Toggled(t)) == t
  {
  }

  /** The initial-mode priority: stored value, then the hint, then light. */
  lemma InitialThemePriority(stored: Option<string>, prefersDark: bool)
    ensures var t := InitialTheme(stored, prefersDark);
            && (stored == Some("dark") ==> t == Dark)
            && (stored == Some("light") ==> t == Light)
            && (stored != Some("dark") && stored != Some("light") ==> (t == Dark <==> prefersDark))
  {
  }

  /** What the theme effect stores is what the next load restores, whatever the hint. */
  lemma ThemeRoundTrip(t: Theme, prefersDark: bool)
    ensures InitialTheme(Some(ThemeName(t)), prefersDark) == t
  {
  }

  /** What the palette effect stores is what the next load restores. This holds because storage
      is modelled as a typed palette; the JSON text written and parsed in between is not modelled. */
  lemma ColorsRoundTrip(p: Palette)
    ensures InitialColors(Stored(p)) == p
  {
  }

  /** A missing or unparseable palette always restores the light defaults, so in dark mode the
      first load and `resetColors` disagree. */
  lemma LoadFallbackIgnoresMode(stored: StoredColors)
    requires !stored.Stored?
    ensures InitialColors(stored) == DefaultColors
    ensures InitialColors(stored) != ResetPalette(Dark)
  {
  }

  /** Resetting picks the dark defaults exactly in dark mode. */
  lemma ResetFollowsMode(t: Theme)
    ensures ResetPalette(t) == DarkDefaultColors <==> t == Dark
    ensures ResetPalette(t) == DefaultColors <==> t == Light
  {
  }

  /** After the theme effect the root carries exactly one mode marker, the current one, and every
      other class it had. */
  lemma ThemeClassesExclusive(classes: set<string>, t: Theme)
    ensures var c := ThemeClasses(classes, t);
            && ThemeName(t) in c
            && ThemeName(Toggled(t)) !in c
            && forall x :: x in classes && x != "light" && x != "dark" ==> x in c
  {
  }

  /** The four writes touch exactly their four keys: --primary, --ring and --golden receive the
      primary colour, --accent the accent colour, and every other variable is left as it was. */
  lemma StyleWritesEffect(vars: map<string, string>, primary: string, accent: string)
    ensures var v := StyleWrites(vars, primary, accent);
            && v.Keys == vars.Keys + {"--primary", "--ring", "--golden", "--accent"}
            && v["--primary"] == v["--ring"] == v["--golden"] == primary
            && v["--accent"] == accent
            && forall k :: k in vars && k !in {"--primary", "--ring", "--golden", "--accent"} ==> v[k] == vars[k]
  {
  }

  /** The palette effect writes the primary slot's conversion to --primary, --ring and --golden,
      the accent slot's to --accent, and leaves every other variable as it was. */
  lemma PaletteVarsWrites(vars: map<string, string>, p: Palette)
    ensures var v := PaletteVars(vars, p);
            && v.Keys == vars.Keys + {"--primary", "--ring", "--golden", "--accent"}
            && v["--primary"] == v["--ring"] == v["--golden"] == ColorConversion.HexToHsl(p.primary)
            && v["--accent"] == ColorConversion.HexToHsl(p.accent)
            && forall k :: k in vars && k !in {"--primary", "--ring", "--golden", "--accent"} ==> v[k] == vars[k]
  {
    StyleWritesEffect(vars, ColorConversion.HexToHsl(p.primary), ColorConversion.HexToHsl(p.accent));
  }

  /** Running the palette effect again for the same palette changes nothing. */
  lemma PaletteVarsIdempotent(vars: map<string, string>, p: Palette)
    ensures PaletteVars(PaletteVars(vars, p), p) == PaletteVars(vars, p)
  {
    StyleWritesIdempotent(vars, ColorConversion.HexToHsl(p.primary), ColorConversion.HexToHsl(p.accent));
  }

  lemma StyleWritesIdempotent(vars: map<string, string>, primary: string, accent: string)
    ensures StyleWrites(StyleWrites(vars, primary, accent), primary, accent) == StyleWrites(vars, primary, accent)
  {
  }

  /** The secondary and background slots never reach a style variable. */
  lemma PaletteVarsIgnoreSecondaryAndBackground(vars: map<string, string>, p: Palette, secondary: string, background: string)
    ensures PaletteVars(vars, p.(secondary := secondary, background := background)) == PaletteVars(vars, p)
  {
  }

  /** Setting a slot and then deriving its variable gives the direct conversion of the new value. */
  lemma SetPrimaryThenDerive(vars: map<string, string>, p: Palette, value: string)
    ensures PaletteVars(vars, p.With(Primary, value))["--primary"] == ColorConversion.HexToHsl(value)
    ensures PaletteVars(vars, p.With(Accent, value))["--accent"] == ColorConversion.HexToHsl(value)
  {
  }

  /** An accent that is not a colour derives the fallback. */
  lemma InvalidAccentFallsBack(vars: map<string, string>, p: Palette)
    ensures PaletteVars(vars, p.With(Accent, "#zzzzzz"))["--accent"] == "0 0% 0%"
  {
    ColorConversion.HexToHslExamples();
  }

  /** The provider's state plus the browser state its effects write. */
  class ThemeProvider {
    var theme: Theme
    var customColors: Palette
    /** The `saranya-theme` storage entry. */
    var storedTheme: Option<string>
    /** The `saranya-custom-colors` storage entry. */
    var storedColors: StoredColors
    /** The class list of the document root. */
    var rootClasses: set<string>
    /** The style variables of the document root. */
    var styleVars: map<string, string>

    /** Both effects have run for the current state. */
    ghost predicate Synced()
      reads this
    {
      && storedTheme == Some(ThemeName(theme))
      && storedColors == Stored(customColors)
      && ThemeName(theme) in rootClasses
      && ThemeName(Toggled(theme)) !in rootClasses
      && styleVars == PaletteVars(styleVars, customColors)
    }

    /** Mounting: read storage and the hint, then run both effects. */
    constructor (storedTheme: Option<string>, prefersDark: bool, storedColors: StoredColors,
                 rootClasses: set<string>, styleVars: map<string, string>)
      ensures theme == InitialTheme(storedTheme, prefersDark)
      ensures customColors == InitialColors(storedColors)
      ensures this.storedTheme == Some(ThemeName(theme))
      ensures this.storedColors == Stored(customColors)
      ensures this.rootClasses == ThemeClasses(rootClasses, theme)
      ensures this.styleVars == PaletteVars(styleVars, customColors)
      ensures Synced()
    {
      var t := InitialTheme(storedTheme, prefersDark);
      var p := InitialColors(storedColors);
      theme := t;
      customColors := p;
      this.storedTheme := Some(ThemeName(t));
      this.rootClasses := ThemeClasses(rootClasses, t);
      this.styleVars := PaletteVars(styleVars, p);
      this.storedColors := Stored(p);
      PaletteVarsIdempotent(styleVars, p);
    }

    /** The theme effect. */
    method ApplyTheme()
      modifies this
      ensures rootClasses == ThemeClasses(old(rootClasses), theme)
      ensures storedTheme == Some(ThemeName(theme))
      ensures theme == old(theme) && customColors == old(customColors)
      ensures storedColors == old(storedColors) && styleVars == old(styleVars)
    {
      rootClasses := ThemeClasses(rootClasses, theme);
      storedTheme := Some(ThemeName(theme));
    }

    /** The palette effect. */
    method ApplyColors()
      modifies this
      ensures styleVars == PaletteVars(old(styleVars), customColors)
      ensures styleVars == PaletteVars(styleVars, customColors)
      ensures storedColors == Stored(customColors)
      ensures theme == old(theme) && customColors == old(customColors)
      ensures storedTheme == old(storedTheme) && rootClasses == old(rootClasses)
    {
      PaletteVarsIdempotent(styleVars, customColors);
      styleVars := PaletteVars(styleVars, customColors);
      storedColors := Stored(customColors);
    }

    method ToggleTheme()
      requires Synced()
      modifies this
      ensures theme == Toggled(old(theme))
      ensures customColors == old(customColors)
      ensures rootClasses == ThemeClasses(old(rootClasses), theme)
      ensures storedTheme == Some(ThemeName(theme))
      ensures storedColors == old(storedColors) && styleVars == old(styleVars)
      ensures Synced()
    {
      theme := Toggled(theme);
      ApplyTheme();
    }

    method SetTheme(t: Theme)
      requires Synced()
      modifies this
      ensures theme == t
      ensures customColors == old(customColors)
      ensures rootClasses == ThemeClasses(old(rootClasses), t)
      ensures storedTheme == Some(ThemeName(t))
      ensures storedColors == old(storedColors) && styleVars == old(styleVars)
      ensures Synced()
    {
      theme := t;
      ApplyTheme();
    }

    method SetCustomColor(slot: Slot, value: string)
      requires Synced()
      modifies this
      ensures customColors == old(customColors).With(slot, value)
      ensures theme == old(theme)
      ensures styleVars == PaletteVars(old(styleVars), customColors)
      ensures storedColors == Stored(customColors)
      ensures storedTheme == old(storedTheme) && rootClasses == old(rootClasses)
      ensures Synced()
    {
      customColors := customColors.With(slot, value);
      ApplyColors();
    }

    method ResetColors()
      requires Synced()
      modifies this
      ensures customColors == ResetPalette(old(theme))
      ensures theme == old(theme)
      ensures styleVars == PaletteVars(old(styleVars), customColors)
      ensures storedColors == Stored(customColors)
      ensures storedTheme == old(storedTheme) && rootClasses == old(rootClasses)
      ensures Synced()
    {
      var p := ResetPalette(theme);
      customColors := p;
      ApplyColors();
    }
  }

  /** `useTheme`: outside a `ThemeProvider` there is no store and the hook throws. */
  function UseTheme(provided: Option<ThemeProvider>): (r: Result<ThemeProvider, string>)
    ensures r.Failure? <==> provided.None?
    ensures r.Failure? ==> r.error == "useTheme must be used within a ThemeProvider"
    ensures r.Success? ==> r.value == provided.value
  {
    Hooks.UseContext(provided, "useTheme must be used within a ThemeProvider")
  }
}
