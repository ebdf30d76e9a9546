/** The theme hook: a theme record, the dark flag derived from its mode, the
    classes it puts on the document root and the copy it keeps in storage. The
    record updates are pure functions of the previous theme; the hook applies
    them and re-runs its effects. */
module Theme {
  import opened Wrappers

  datatype Mode = Light | Dark | System

  datatype ParticleType = Leaves | Snow | Dust | NoParticles

  datatype ThemeConfig = ThemeConfig(mode: Mode, highContrast: bool, wallpaper: string, particleEffect: ParticleType)

  /** A `Partial<ThemeConfig>`: each field is present or absent. */
  datatype PartialTheme = PartialTheme(
    mode: Option<Mode>,
    highContrast: Option<bool>,
    wallpaper: Option<string>,
    particleEffect: Option<ParticleType>)

  const DefaultTheme := ThemeConfig(System, false, "water", NoParticles)

  const NoFields := PartialTheme(None, None, None, None)

  function Or<T>(o: Option<T>, fallback: T): T {
    if o.Some? then o.value else fallback
  }

  /** `{ ...prev, ...newTheme }`: each supplied field overrides, each absent
      one keeps its previous value. */
  function Merge(prev: ThemeConfig, p: PartialTheme): (r: ThemeConfig)
    ensures p.mode.Some? ==> r.mode == p.mode.value
    ensures p.mode.None? ==> r.mode == prev.mode
    ensures p.highContrast.Some? ==> r.highContrast == p.highContrast.value
    ensures p.highContrast.None? ==> r.highContrast == prev.highContrast
    ensures p.wallpaper.Some? ==> r.wallpaper == p.wallpaper.value
    ensures p.wallpaper.None? ==> r.wallpaper == prev.wallpaper
    ensures p.particleEffect.Some? ==> r.particleEffect == p.particleEffect.value
    ensures p.particleEffect.None? ==> r.particleEffect == prev.particleEffect
  {
    ThemeConfig(Or(p.mode, prev.mode), Or(p.highContrast, prev.highContrast),
                Or(p.wallpaper, prev.wallpaper), Or(p.particleEffect, prev.particleEffect))
  }

  /** What is written to storage: the whole theme, every field present. */
  function Stored(t: ThemeConfig): PartialTheme {
    PartialTheme(Some(t.mode), Some(t.highContrast), Some(t.wallpaper), Some(t.particleEffect))
  }

  /** The initial theme: the defaults, overridden field by field by what
      storage holds, if anything. */
  function InitialTheme(stored: Option<PartialTheme>): (r: ThemeConfig)
    ensures stored.None? ==> r == DefaultTheme
  {
    if stored.Some? then Merge(DefaultTheme, stored.value) else DefaultTheme
  }

  /** A stored record that holds only a mode overrides the mode and keeps the
      other three defaults. */
  lemma InitialThemeFromStoredMode(m: Mode)
    ensures InitialTheme(Some(PartialTheme(Some(m), None, None, None))) == ThemeConfig(m, false, "water", NoParticles)
  {
  }

  /** Merging nothing changes nothing, and merging the same fields twice is
      merging them once. */
  lemma MergeLaws(t: ThemeConfig, p: PartialTheme)
    ensures Merge(t, NoFields) == t
    ensures Merge(Merge(t, p), p) == Merge(t, p)
  {
  }

  /** The stored copy restores the theme that wrote it, whatever the defaults. */
  lemma StoredRoundTrip(t: ThemeConfig)
    ensures InitialTheme(Some(Stored(t))) == t
  {
  }

  /** The light, dark, system cycle. */
  function NextMode(m: Mode): (r: Mode)
    ensures r != m
  {
    match m
    case Light => Dark
    case Dark => System
    case System => Light
  }

  /** `toggleMode`: only the mode moves on. */
  function ModeToggled(t: ThemeConfig): (r: ThemeConfig)
    ensures r.mode == NextMode(t.mode) && r != t
    ensures r.highContrast == t.highContrast && r.wallpaper == t.wallpaper
    ensures r.particleEffect == t.particleEffect
  {
    t.(mode := NextMode(t.mode))
  }

  /** Three toggles restore the theme, and no fewer do. */
  lemma ModeToggledCycle(t: ThemeConfig)
    ensures ModeToggled(ModeToggled(ModeToggled(t))) == t
    ensures ModeToggled(ModeToggled(t)) != t
  {
  }

  /** `toggleHighContrast`: only the flag flips. */
  function HighContrastToggled(t: ThemeConfig): (r: ThemeConfig)
    ensures r.highContrast == !t.highContrast
    ensures r.mode == t.mode && r.wallpaper == t.wallpaper && r.particleEffect == t.particleEffect
  {
    t.(highContrast := !t.highContrast)
  }

  lemma HighContrastToggledInvolution(t: ThemeConfig)
    ensures HighContrastToggled(HighContrastToggled(t)) == t
  {
  }

  /** `setWallpaper`: only the wallpaper changes. */
  function WithWallpaper(t: ThemeConfig, wallpaper: string): (r: ThemeConfig)
    ensures r.wallpaper == wallpaper
    ensures r.mode == t.mode && r.highContrast == t.highContrast && r.particleEffect == t.particleEffect
  {
    t.(wallpaper := wallpaper)
  }

  /** `setParticleEffect`: only the particle effect changes. */
  function WithParticleEffect(t: ThemeConfig, effect: ParticleType): (r: ThemeConfig)
    ensures r.particleEffect == effect
    ensures r.mode == t.mode && r.highContrast == t.highContrast && r.wallpaper == t.wallpaper
  {
    t.(particleEffect := effect)
  }

  /** Each single-field setter is the merge of just that field. */
  lemma SettersAreMerges(t: ThemeConfig, wallpaper: string, effect: ParticleType)
    ensures WithWallpaper(t, wallpaper) == Merge(t, NoFields.(wallpaper := Some(wallpaper)))
    ensures WithParticleEffect(t, effect) == Merge(t, NoFields.(particleEffect := Some(effect)))
    ensures ModeToggled(t) == Merge(t, NoFields.(mode := Some(NextMode(t.mode))))
    ensures HighContrastToggled(t) == Merge(t, NoFields.(highContrast := Some(!t.highContrast)))
  {
  }

  /** Dark for `dark`, light for `light`, and the media query's answer for
      `system`. */
  function IsDark(mode: Mode, prefersDark: bool): (r: bool)
    ensures mode == Dark ==> r
    ensures mode == Light ==> !r
    ensures mode == System ==> r == prefersDark
  {
    match mode
    case System => prefersDark
    case Dark => true
    case Light => false
  }

  /** The effect on the root's class list: `dark` is present exactly when the
      theme is dark and `high-contrast` exactly when high contrast is on; no
      other class is touched. */
  function ApplyClasses(classes: set<string>, isDark: bool, highContrast: bool): (r: set<string>)
    ensures "dark" in r <==> isDark
    ensures "high-contrast" in r <==> highContrast
    ensures forall c :: c != "dark" && c != "high-contrast" ==> (c in r <==> c in classes)
  {
    var withDark := if isDark then classes + {"dark"} else classes - {"dark"};
    if highContrast then withDark + {"high-contrast"} else withDark - {"high-contrast"}
  }

  /** The hook's state together with the outside state its effects keep in
      step: the media query's current answer, the root's classes and storage. */
  class ThemeHook {
    var theme: ThemeConfig
    var isDark: bool
    var prefersDark: bool
    var rootClasses: set<string>
    var storage: Option<PartialTheme>

    /** What the effects establish after every render. */
    ghost predicate Valid()
      reads this
    {
      && isDark == IsDark(theme.mode, prefersDark)
      && ("dark" in rootClasses <==> isDark)
      && ("high-contrast" in rootClasses <==> theme.highContrast)
      && storage == Some(Stored(theme))
    }

    /** Mounting reads storage, then runs the effects. */
    constructor (stored: Option<PartialTheme>, mediaPrefersDark: bool, classes: set<string>)
      ensures Valid()
      ensures theme == InitialTheme(stored) && prefersDark == mediaPrefersDark
      ensures forall c :: c != "dark" && c != "high-contrast" ==> (c in rootClasses <==> c in classes)
    {
      var t := InitialTheme(stored);
      var dark := IsDark(t.mode, mediaPrefersDark);
      theme := t;
      prefersDark := mediaPrefersDark;
      isDark := dark;
      rootClasses := ApplyClasses(classes, dark, t.highContrast);
      storage := Some(Stored(t));
    }

    /** Installs a new theme and re-runs the effects. */
    method Commit(t: ThemeConfig)
      modifies this
      ensures Valid()
      ensures theme == t && prefersDark == old(prefersDark)
      ensures forall c :: c != "dark" && c != "high-contrast" ==> (c in rootClasses <==> c in old(rootClasses))
    {
      theme := t;
      isDark := IsDark(t.mode, prefersDark);
      rootClasses := ApplyClasses(rootClasses, isDark, t.highContrast);
      storage := Some(Stored(t));
    }

    method SetTheme(p: PartialTheme)
      modifies this
      ensures Valid() && theme == Merge(old(theme), p) && prefersDark == old(prefersDark)
    {
      Commit(Merge(theme, p));
    }

    method ToggleMode()
      modifies this
      ensures Valid() && theme == ModeToggled(old(theme)) && prefersDark == old(prefersDark)
    {
      Commit(ModeToggled(theme));
    }

    method ToggleHighContrast()
      modifies this
      ensures Valid() && theme == HighContrastToggled(old(theme)) && prefersDark == old(prefersDark)
    {
      Commit(HighContrastToggled(theme));
    }

    method SetWallpaper(wallpaper: string)
      modifies this
      ensures Valid() && theme == WithWallpaper(old(theme), wallpaper) && prefersDark == old(prefersDark)
    {
      Commit(WithWallpaper(theme, wallpaper));
    }

    method SetParticleEffect(effect: ParticleType)
      modifies this
      ensures Valid() && theme == WithParticleEffect(old(theme), effect) && prefersDark == old(prefersDark)
    {
      Commit(WithParticleEffect(theme, effect));
    }

    /** The media query's change listener: the dark flag follows it only in
        `system` mode. */
    method MediaChange(matches: bool)
      requires Valid()
      modifies this
      ensures Valid()
      ensures theme == old(theme) && prefersDark == matches
      ensures theme.mode != System ==> isDark == old(isDark)
      ensures theme.mode == System ==> isDark == matches
    {
      prefersDark := matches;
      if theme.mode == System {
        isDark := matches;
      }
      rootClasses := ApplyClasses(rootClasses, isDark, theme.highContrast);
    }
  }
}
