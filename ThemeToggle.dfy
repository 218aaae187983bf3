/**
 * The theme switch (`ThemeToggle.tsx`): a light theme by day and a dark one
 * by night, unless the visitor has chosen one, which is then kept in
 * browser storage. The hour of the clock is a parameter.
 */
module ThemeToggle {
  import opened Wrappers

  const Light: string := "light"
  const Dark: string := "dark"
  const ThemeKey: string := "theme"
  const OverrideKey: string := "themeManualOverride"

  /** `getThemeByTime`: light from 7:00 up to 19:00, dark otherwise. */
  function ThemeByTime(hour: int): (theme: string)
    ensures theme == Light <==> 7 <= hour < 19
    ensures theme == Dark <==> !(7 <= hour < 19)
  {
    if hour >= 7 && hour < 19 then Light else Dark
  }

  /** `localStorage.getItem(key)`: None for a key never set. */
  function GetItem(storage: map<string, string>, key: string): Option<string> {
    if key in storage then Some(storage[key]) else None
  }

  /** JavaScript truthiness of a stored value: present and not empty. */
  predicate Truthy(item: Option<string>) {
    item.Some? && item.value != ""
  }

  /** `getItem("theme") || "dark"`: whatever was stored, unchecked, or dark. */
  function SavedTheme(storage: map<string, string>): (theme: string)
    ensures Truthy(GetItem(storage, ThemeKey)) ==> theme == storage[ThemeKey]
    ensures !Truthy(GetItem(storage, ThemeKey)) ==> theme == Dark
    ensures theme != ""
  {
    var item := GetItem(storage, ThemeKey);
    if Truthy(item) then item.value else Dark
  }

  /** The theme the mount effect applies: the saved one under an override, otherwise the time rule. */
  function MountTheme(storage: map<string, string>, hour: int): string {
    if Truthy(GetItem(storage, OverrideKey)) then SavedTheme(storage) else ThemeByTime(hour)
  }

  /** The button's action: light turns dark, and anything else turns light. */
  function Toggled(theme: string): (next: string)
    ensures next == Light || next == Dark
    ensures next != theme || (theme != Light && theme != Dark)
  {
    if theme == Light then Dark else Light
  }

  /** Two presses give back a light or dark theme; a stored theme of any other name becomes light. */
  lemma ToggleTwice(theme: string)
    ensures theme == Light || theme == Dark ==> Toggled(Toggled(theme)) == theme
    ensures theme != Light && theme != Dark ==> Toggled(theme) == Light
  {
  }

  /** The component's state: the theme, the document's `dark` class and the storage it reads and writes. */
  class Toggle {
    var theme: string
    var darkClass: bool
    var storage: map<string, string>

    /** `applyTheme` keeps the class in step with the theme. */
    ghost predicate Valid()
      reads this
    {
      darkClass <==> theme == Dark
    }

    /** Whether the visitor's choice overrides the clock. */
    function Overridden(): bool
      reads this
    {
      Truthy(GetItem(storage, OverrideKey))
    }

    /** `useState("dark")` followed by the mount effect, at the given hour. */
    constructor (storage: map<string, string>, hour: int)
      ensures Valid() && this.storage == storage
      ensures theme == MountTheme(storage, hour)
      ensures Overridden() ==> theme == SavedTheme(storage)
      ensures !Overridden() ==> theme == ThemeByTime(hour)
    {
      this.storage := storage;
      theme := Dark;
      var newTheme := if Truthy(GetItem(storage, OverrideKey)) then SavedTheme(storage) else ThemeByTime(hour);
      theme := newTheme;
      darkClass := newTheme == Dark;
    }

    /** `applyTheme`. */
    method Apply(newTheme: string)
      modifies this
      ensures Valid() && theme == newTheme && storage == old(storage)
    {
      theme := newTheme;
      darkClass := newTheme == Dark;
    }

    /** The minute timer: the time rule applies unless the visitor has chosen. */
    method MinuteTick(hour: int)
      requires Valid()
      modifies this
      ensures Valid() && storage == old(storage)
      ensures old(Overridden()) ==> theme == old(theme) && darkClass == old(darkClass)
      ensures !old(Overridden()) ==> theme == ThemeByTime(hour)
    {
      if !Truthy(GetItem(storage, OverrideKey)) {
        Apply(ThemeByTime(hour));
      }
    }

    /** `toggleTheme`: flips the theme, stores it and records the override. */
    method ToggleTheme()
      requires Valid()
      modifies this
      ensures Valid()
      ensures theme == Toggled(old(theme))
      ensures storage == old(storage)[ThemeKey := theme][OverrideKey := "true"]
      ensures Overridden() && SavedTheme(storage) == theme
    {
      var newTheme := if theme == Light then Dark else Light;
      theme := newTheme;
      storage := storage[ThemeKey := newTheme][OverrideKey := "true"];
      darkClass := newTheme == Dark;
    }
  }

  /** A chosen theme survives a reload: mounting again at any hour shows it. */
  lemma ChoiceSurvivesReload(storage: map<string, string>, theme: string, hour: int)
    requires theme == Light || theme == Dark
    ensures MountTheme(storage[ThemeKey := theme][OverrideKey := "true"], hour) == theme
  {
  }

  /** Without an override the theme follows the clock whatever was stored. */
  lemma ClockRulesWithoutOverride(storage: map<string, string>, hour: int)
    requires OverrideKey !in storage
    ensures MountTheme(storage, hour) == ThemeByTime(hour)
  {
  }
}
