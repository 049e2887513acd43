/**
 * The dark/light theme toggle: `initThemeToggle` picks the first theme from the
 * saved preference or the system's, a click flips it and saves it, and a change
 * of the system preference applies only while nothing is saved. `setTheme` writes
 * the `data-bs-theme` attribute and `updateThemeToggleIcon` the button's icon.
 */
module Theme {
  import opened Wrappers
  import opened Storage

  /** The `localStorage` key of the saved theme. */
  const ThemeKey := "theme"

  const Dark := "dark"
  const Light := "light"

  /** The icon classes of the toggle button. */
  const SunIcon := "bi bi-sun-fill"
  const MoonIcon := "bi bi-moon-fill"

  /**
   * What the theme code reads and writes: the `data-bs-theme` attribute (absent
   * before the first `setTheme`), the class of the button's `<i>` icon (`None`
   * when the button has no icon) and the `localStorage` contents.
   */
  datatype ThemeState = ThemeState(attr: Option<string>, icon: Option<string>, store: map<string, string>)

  /** A click on the toggle, or a change of `prefers-color-scheme: dark`. */
  datatype ThemeEvent = Click | SystemChange(prefersDark: bool)

  /** The theme the system preference asks for. */
  function SystemTheme(prefersDark: bool): (t: string)
    ensures t == Dark || t == Light
    ensures t == Dark <==> prefersDark
  {
    if prefersDark then Dark else Light
  }

  /** `savedTheme || (systemPrefersDark ? 'dark' : 'light')`. */
  function InitialTheme(saved: Option<string>, prefersDark: bool): (t: string)
    ensures Truthy(saved) ==> t == saved.value
    ensures !Truthy(saved) ==> (t == Dark || t == Light) && (t == Dark <==> prefersDark)
  {
    if Truthy(saved) then saved.value else SystemTheme(prefersDark)
  }

  /** `currentTheme === 'dark' ? 'light' : 'dark'`, where a missing attribute reads as `null`. */
  function Toggled(current: Option<string>): (t: string)
    ensures t == Dark || t == Light
    ensures t == Light <==> current == Some(Dark)
  {
    if current == Some(Dark) then Light else Dark
  }

  /** The icon class `updateThemeToggleIcon` writes: the sun exactly for the dark theme. */
  function IconClass(theme: string): (c: string)
    ensures c == SunIcon || c == MoonIcon
    ensures c == SunIcon <==> theme == Dark
  {
    if theme == Dark then SunIcon else MoonIcon
  }

  /** `updateThemeToggleIcon`: a button without an icon is left as it is. */
  function WithIcon(icon: Option<string>, theme: string): (after: Option<string>)
    ensures after.Some? <==> icon.Some?
    ensures after.Some? ==> after.value == IconClass(theme)
  {
    if icon.Some? then Some(IconClass(theme)) else None
  }

  /** `setTheme(theme)` followed by `updateThemeToggleIcon(button, theme)`. */
  function Apply(s: ThemeState, theme: string): ThemeState {
    s.(attr := Some(theme), icon := WithIcon(s.icon, theme))
  }

  /** The state `initThemeToggle` leaves on a page that has the toggle button. */
  function Init(s: ThemeState, prefersDark: bool): ThemeState {
    Apply(s, InitialTheme(Lookup(s.store, ThemeKey), prefersDark))
  }

  /** The effect of one event on the theme. */
  function Next(s: ThemeState, e: ThemeEvent): ThemeState {
    match e
    case Click =>
      var t := Toggled(s.attr);
      Apply(s, t).(store := s.store[ThemeKey := t])
    case SystemChange(prefersDark) =>
      if Truthy(Lookup(s.store, ThemeKey)) then s else Apply(s, SystemTheme(prefersDark))
  }

  /** The state after a sequence of events, in order. */
  function Run(s: ThemeState, events: seq<ThemeEvent>): ThemeState
    decreases |events|
  {
    if events == [] then s else Run(Next(s, events[0]), events[1..])
  }

  /** The icon, when there is one, shows the theme in the attribute. */
  predicate IconInSync(s: ThemeState) {
    s.icon.Some? ==> s.attr.Some? && s.icon.value == IconClass(s.attr.value)
  }

  /** Once a non-empty theme is saved, the attribute holds it. */
  predicate FollowsSaved(s: ThemeState) {
    Truthy(Lookup(s.store, ThemeKey)) ==> s.attr == Lookup(s.store, ThemeKey)
  }

  predicate Consistent(s: ThemeState) {
    IconInSync(s) && FollowsSaved(s)
  }

  /**
   * After `initThemeToggle` the icon matches the theme and the attribute holds the
   * saved theme when there is one; a saved theme wins over the system preference.
   */
  lemma InitConsistent(s: ThemeState, prefersDark: bool)
    ensures Consistent(Init(s, prefersDark))
    ensures Init(s, prefersDark).store == s.store
    ensures Truthy(Lookup(s.store, ThemeKey)) ==> Init(s, prefersDark).attr == Lookup(s.store, ThemeKey)
    ensures !Truthy(Lookup(s.store, ThemeKey)) ==>
      Init(s, prefersDark).attr == Some(if prefersDark then Dark else Light)
  {
  }

  /**
   * A click turns `dark` into `light` and anything else into `dark`, saves the new
   * theme under `theme` and touches no other key.
   */
  lemma ClickFlipsAndSaves(s: ThemeState)
    ensures var t := Next(s, Click);
      && (t.attr == Some(Light) <==> s.attr == Some(Dark))
      && (t.attr == Some(Dark) <==> s.attr != Some(Dark))
      && Lookup(t.store, ThemeKey) == t.attr
      && (forall k :: k != ThemeKey ==> Lookup(t.store, k) == Lookup(s.store, k))
  {
  }

  /** Two clicks from `dark` or `light` come back to it. */
  lemma ClickTwice(s: ThemeState)
    requires s.attr == Some(Dark) || s.attr == Some(Light)
    ensures Run(s, [Click, Click]).attr == s.attr
  {
    assert Run(s, [Click, Click]) == Next(Next(s, Click), Click) by {
      assert [Click, Click][1..] == [Click];
    }
  }

  /** A change of system preference applies exactly when no non-empty theme is saved. */
  lemma SystemChangeApplies(s: ThemeState, prefersDark: bool)
    ensures var t := Next(s, SystemChange(prefersDark));
      && t.store == s.store
      && (Truthy(Lookup(s.store, ThemeKey)) ==> t == s)
      && (!Truthy(Lookup(s.store, ThemeKey)) ==> t.attr == Some(SystemTheme(prefersDark)))
  {
  }

  /** Every event keeps the icon in step with the theme and the theme with the saved one. */
  lemma NextConsistent(s: ThemeState, e: ThemeEvent)
    requires Consistent(s)
    ensures Consistent(Next(s, e))
  {
  }

  lemma {:induction false} RunConsistent(s: ThemeState, events: seq<ThemeEvent>)
    requires Consistent(s)
    ensures Consistent(Run(s, events))
    decreases |events|
  {
    if events != [] {
      NextConsistent(s, events[0]);
      RunConsistent(Next(s, events[0]), events[1..]);
    }
  }

  /** Once a theme is saved, no sequence of system changes alters anything. */
  lemma {:induction false} SavedThemeIgnoresSystem(s: ThemeState, events: seq<ThemeEvent>)
    requires Truthy(Lookup(s.store, ThemeKey))
    requires forall i :: 0 <= i < |events| ==> events[i].SystemChange?
    ensures Run(s, events) == s
    decreases |events|
  {
    if events != [] {
      SavedThemeIgnoresSystem(s, events[1..]);
    }
  }

  /** The theme code writes only the `theme` key of `localStorage`. */
  lemma {:induction false} RunKeepsOtherKeys(s: ThemeState, events: seq<ThemeEvent>, k: string)
    requires k != ThemeKey
    ensures Lookup(Run(s, events).store, k) == Lookup(s.store, k)
    decreases |events|
  {
    if events != [] {
      RunKeepsOtherKeys(Next(s, events[0]), events[1..], k);
    }
  }

  /** The toggle button's page: the root element's attribute, the button's icon and `localStorage`. */
  class ThemeToggle {
    var attr: Option<string>
    var icon: Option<string>
    const storage: LocalStorage

    constructor (storage: LocalStorage, attr: Option<string>, icon: Option<string>)
      ensures this.storage == storage && this.attr == attr && this.icon == icon
    {
      this.storage := storage;
      this.attr := attr;
      this.icon := icon;
    }

    function State(): ThemeState
      reads this, storage
    {
      ThemeState(attr, icon, storage.items)
    }

    /** `setTheme(theme)`: sets `data-bs-theme` and nothing else. */
    method SetTheme(theme: string)
      modifies this
      ensures attr == Some(theme) && icon == old(icon)
    {
      attr := Some(theme);
    }

    /** `updateThemeToggleIcon(button, theme)`. */
    method UpdateThemeToggleIcon(theme: string)
      modifies this
      ensures icon == WithIcon(old(icon), theme) && attr == old(attr)
    {
      if icon.None? {
        return;
      }
      icon := Some(if theme == Dark then SunIcon else MoonIcon);
    }

    /**
     * `initThemeToggle`: without the toggle button nothing happens; otherwise the
     * first theme is applied. `wired` says whether the handlers are installed.
     */
    method InitThemeToggle(hasToggle: bool, prefersDark: bool) returns (wired: bool)
      modifies this
      ensures wired == hasToggle
      ensures State() == if hasToggle then Init(old(State()), prefersDark) else old(State())
    {
      if !hasToggle {
        return false;
      }
      var savedTheme := storage.GetItem(ThemeKey);
      var initialTheme := if Truthy(savedTheme) then savedTheme.value
                          else if prefersDark then Dark else Light;
      SetTheme(initialTheme);
      UpdateThemeToggleIcon(initialTheme);
      wired := true;
    }

    /** The click handler. */
    method OnClick()
      modifies this, storage
      ensures State() == Next(old(State()), Click)
    {
      var currentTheme := attr;
      var newTheme := if currentTheme == Some(Dark) then Light else Dark;
      SetTheme(newTheme);
      UpdateThemeToggleIcon(newTheme);
      storage.SetItem(ThemeKey, newTheme);
    }

    /** The `prefers-color-scheme` change handler. */
    method OnSystemChange(prefersDark: bool)
      modifies this
      ensures State() == Next(old(State()), SystemChange(prefersDark))
    {
      if !Truthy(storage.GetItem(ThemeKey)) {
        var newTheme := if prefersDark then Dark else Light;
        SetTheme(newTheme);
        UpdateThemeToggleIcon(newTheme);
      }
    }
  }
}
