/** The light/dark theme switch: the `data-theme` attribute on the document
    root, the "theme" key in browser-local storage, the toggle button's
    `aria-pressed` state and a polite live region announcing each change
    (assets/js/main.js:53-95). */
module Theme {
  import opened Opt

  /** The theme applied at load: the saved value when it is non-empty, else
      "dark". The system colour-scheme preference is read but never used. */
  function InitialTheme(saved: Option<string>, prefersDark: bool): (theme: string)
    ensures theme != ""
    ensures saved.Some? && saved.value != "" ==> theme == saved.value
    ensures saved.None? || saved == Some("") ==> theme == "dark"
  {
    match saved
    case Some(t) => if t != "" then t else "dark"
    case None => "dark"
  }

  /** A fresh load with nothing saved is dark whatever the system preference. */
  lemma InitialThemeIgnoresPreference(saved: Option<string>)
    ensures InitialTheme(saved, true) == InitialTheme(saved, false)
    ensures InitialTheme(None, true) == "dark"
  {
  }

  /** The theme a toggle moves to: "light" exactly from "dark", "dark" from
      anything else. */
  function NextTheme(theme: string): (next: string)
    ensures next == "light" || next == "dark"
    ensures next == "light" <==> theme == "dark"
  {
    if theme == "dark" then "light" else "dark"
  }

  /** Two toggles from "dark" or "light" restore the original theme; from any
      other value they end in "light". */
  lemma ToggleTwice(theme: string)
    ensures theme == "dark" || theme == "light" ==> NextTheme(NextTheme(theme)) == theme
    ensures theme != "dark" && theme != "light" ==> NextTheme(NextTheme(theme)) == "light"
  {
  }

  /** The live region's announcement for a theme. */
  function StatusText(theme: string): (text: string)
    ensures text == "Dark mode enabled" <==> theme == "dark"
    ensures text == "Light mode enabled" <==> theme != "dark"
  {
    if theme == "dark" then "Dark mode enabled" else "Light mode enabled"
  }

  /** The toggle button's `aria-pressed` for a theme: pressed exactly in light mode. */
  function PressedText(mode: string): (pressed: string)
    ensures pressed == "true" <==> mode == "light"
    ensures pressed == "false" <==> mode != "light"
  {
    if mode == "light" then "true" else "false"
  }

  class ThemeController {
    /** Whether both `#themeIcon` and `#themeToggle` exist. */
    const iconPresent: bool
    /** `data-theme` on the document root. */
    var theme: string
    /** The "theme" key in local storage. */
    var stored: Option<string>
    /** The text of the `#themeStatus` live region. */
    var status: string
    /** The toggle button's `aria-pressed`. */
    var ariaPressed: Option<string>

    /** After a toggle the stored key, the applied theme, the announcement and
        the button state all agree, and the theme is one of the two known ones. */
    predicate Persisted()
      reads this
    {
      && (theme == "dark" || theme == "light")
      && stored == Some(theme)
      && status == StatusText(theme)
      && (iconPresent ==> ariaPressed == Some(PressedText(theme)))
    }

    /** Page load: apply the saved theme (or "dark"), render the icon and create
        the empty live region. Storage is only read here. */
    constructor (saved: Option<string>, prefersDark: bool, iconPresent: bool, pressed: Option<string>)
      ensures this.iconPresent == iconPresent
      ensures theme == InitialTheme(saved, prefersDark)
      ensures stored == saved
      ensures status == ""
      ensures ariaPressed == if iconPresent then Some(PressedText(theme)) else pressed
    {
      this.iconPresent := iconPresent;
      theme := InitialTheme(saved, prefersDark);
      stored := saved;
      status := "";
      ariaPressed := pressed;
      new;
      UpdateThemeIcon(theme);
    }

    /** `updateThemeIcon`: with both elements present, set `aria-pressed` from
        the mode; otherwise do nothing. */
    method UpdateThemeIcon(mode: string)
      modifies this`ariaPressed
      ensures ariaPressed == if iconPresent then Some(PressedText(mode)) else old(ariaPressed)
    {
      if iconPresent {
        ariaPressed := Some(PressedText(mode));
      }
    }

    /** A click on the toggle: flip the theme, persist it, re-render the icon
        and announce the new mode. */
    method Toggle()
      modifies this
      ensures theme == NextTheme(old(theme))
      ensures Persisted()
      ensures !iconPresent ==> ariaPressed == old(ariaPressed)
    {
      var next := NextTheme(theme);
      theme := next;
      stored := Some(next);
      UpdateThemeIcon(next);
      status := StatusText(next);
    }
  }
}
