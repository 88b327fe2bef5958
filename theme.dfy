/**
 * The light/dark switch of the MedAssist chat page: the `data-theme`
 * attribute, the label of the switch, and the saved choice.
 */
module Theme {
  import opened Wrappers

  /** The saved theme, or light when none is saved or the saved value is empty. */
  function InitialTheme(saved: Option<string>): (theme: string)
    ensures saved.None? || saved.value == [] ==> theme == "light"
    ensures saved.Some? && saved.value != [] ==> theme == saved.value
  {
    if saved.Some? && saved.value != [] then saved.value else "light"
  }

  /** One click: light goes dark, and anything else, a saved value of another name included, goes light. */
  function NextTheme(current: string): (next: string)
    ensures next == "light" || next == "dark"
    ensures next == "dark" <==> current == "light"
  {
    if current == "light" then "dark" else "light"
  }

  /** The switch's label offers the other mode. */
  function Label(theme: string): (caption: string)
    ensures caption == "Dark mode" || caption == "Light mode"
    ensures caption == "Dark mode" <==> theme == "light"
    ensures caption == if NextTheme(theme) == "dark" then "Dark mode" else "Light mode"
  {
    if theme == "light" then "Dark mode" else "Light mode"
  }

  /** Two clicks from either named theme come back to it. */
  lemma ToggleTwice(theme: string)
    requires theme == "light" || theme == "dark"
    ensures NextTheme(NextTheme(theme)) == theme
  {
  }

  /** Whatever the theme, the label names the mode the next click switches to. */
  lemma LabelNamesNextTheme(theme: string)
    ensures Label(theme) == "Dark mode" <==> NextTheme(theme) == "dark"
    ensures Label(theme) == "Light mode" <==> NextTheme(theme) == "light"
  {
  }

  class ThemeState {
    /** The `data-theme` attribute of the document element. */
    var theme: string
    /** The text of the switch's label. */
    var caption: string
    /** The saved choice in local storage. */
    var saved: Option<string>

    predicate Valid()
      reads this`theme, this`caption
    {
      caption == Label(theme)
    }

    /** `initTheme`: applies the saved choice, or light; nothing is written back. */
    constructor Init(stored: Option<string>)
      ensures theme == InitialTheme(stored) && saved == stored
      ensures Valid()
    {
      theme := InitialTheme(stored);
      caption := Label(InitialTheme(stored));
      saved := stored;
    }

    /** The switch's click handler: the next theme is applied, saved and labelled. */
    method Toggle()
      modifies this`theme, this`caption, this`saved
      ensures theme == NextTheme(old(theme)) && saved == Some(theme)
      ensures Valid()
    {
      var next := NextTheme(theme);
      theme := next;
      saved := Some(next);
      caption := Label(next);
    }
  }
}
