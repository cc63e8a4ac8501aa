/**
 * The page theme held by the application root: where its first value
 * comes from, how the header toggle and a change of the system colour
 * scheme replace it, and what the effect keeps in step with it (the stored
 * preference and the `dark` class on the document element).
 *
 * The browser is abstracted: the stored preference, whether `matchMedia`
 * exists and whether the system prefers dark are inputs; the stored value
 * and the presence of the `dark` class are fields.
 */
module Theme {

  import opened Wrappers

  const Light := "light"
  const Dark := "dark"

  /**
   * The theme chosen on load: a stored value that is not empty, else dark
   * when the browser can be asked and the system prefers dark, else light.
   */
  function InitialTheme(saved: Option<string>, hasMatchMedia: bool, prefersDark: bool): string {
    if saved.Some? && saved.value != "" then saved.value
    else if hasMatchMedia && prefersDark then Dark
    else Light
  }

  /** The three sources, in their order of priority. */
  lemma InitialThemePriority(saved: Option<string>, hasMatchMedia: bool, prefersDark: bool)
    ensures var t := InitialTheme(saved, hasMatchMedia, prefersDark);
      t != "" &&
      (saved.Some? && saved.value != "" ==> t == saved.value) &&
      (!(saved.Some? && saved.value != "") ==> (t == Dark <==> hasMatchMedia && prefersDark)) &&
      (!(saved.Some? && saved.value != "") ==> (t == Light <==> !(hasMatchMedia && prefersDark)))
  {
  }

  /** The header toggle: light becomes dark, anything else becomes light. */
  function Toggled(theme: string): string {
    if theme == Light then Dark else Light
  }

  /** Toggling yields one of the two known themes, and only light turns dark. */
  lemma ToggleCases(theme: string)
    ensures Toggled(theme) == Dark || Toggled(theme) == Light
    ensures Toggled(theme) == Dark <==> theme == Light
    ensures Toggled(theme) != theme || (theme != Light && theme != Dark)
  {
  }

  /** Toggling twice restores light or dark; an unexpected stored value ends as dark. */
  lemma ToggleTwice(theme: string)
    ensures theme == Light || theme == Dark ==> Toggled(Toggled(theme)) == theme
    ensures theme != Light && theme != Dark ==> Toggled(Toggled(theme)) == Dark
  {
  }

  /** The theme a change of the system colour scheme sets. */
  function FromMediaQuery(matches: bool): string {
    if matches then Dark else Light
  }

  /** A system change sets dark exactly when the query matches, whatever the theme was. */
  lemma MediaQueryCases(matches: bool)
    ensures FromMediaQuery(matches) == Dark <==> matches
    ensures FromMediaQuery(matches) == Light <==> !matches
  {
  }

  /** A theme that was stored comes back on the next load, whatever the system prefers. */
  lemma ReloadRestoresTheme(theme: string, hasMatchMedia: bool, prefersDark: bool)
    requires theme != ""
    ensures InitialTheme(Some(theme), hasMatchMedia, prefersDark) == theme
  {
  }

  /** The application root's theme state and the browser state its effect maintains. */
  class ThemeHost {
    var theme: string
    /** The `theme` entry of local storage. */
    var stored: Option<string>
    /** Whether the document element carries the `dark` class. */
    var darkClass: bool

    /** After the effect has run: storage holds the theme and the class marks exactly the dark theme. */
    ghost predicate Valid()
      reads this
    {
      theme != "" && stored == Some(theme) && darkClass == (theme == Dark)
    }

    /**
     * Mounting the root: choose the first theme, then run the effect. The
     * effect queries `matchMedia` without checking that it exists, so a
     * working host needs a browser that has it.
     */
    constructor(saved: Option<string>, hasMatchMedia: bool, prefersDark: bool)
      requires hasMatchMedia
      ensures Valid()
      ensures theme == InitialTheme(saved, hasMatchMedia, prefersDark)
    {
      theme := InitialTheme(saved, hasMatchMedia, prefersDark);
      new;
      InitialThemePriority(saved, hasMatchMedia, prefersDark);
      SyncEffect();
    }

    /** The effect that runs after each theme change: store it and toggle the `dark` class. */
    method SyncEffect()
      modifies this
      requires theme != ""
      ensures Valid() && theme == old(theme)
    {
      stored := Some(theme);
      darkClass := theme == Dark;
    }

    /** `toggleTheme`, followed by the effect. */
    method ToggleTheme()
      modifies this
      ensures Valid()
      ensures theme == Toggled(old(theme))
      ensures darkClass <==> old(theme) == Light
    {
      theme := if theme == Light then Dark else Light;
      SyncEffect();
    }

    /** The media-change listener, followed by the effect. */
    method MediaChange(matches: bool)
      modifies this
      ensures Valid()
      ensures theme == FromMediaQuery(matches)
      ensures darkClass <==> matches
    {
      theme := if matches then Dark else Light;
      SyncEffect();
    }
  }
}
