/**
 * The theme provider: one of three themes, starting at light, and a toggle
 * that moves to the next theme in the cycle light, dark, blue.
 */
module Themes {
  import opened Wrappers

  datatype Theme = Light | Dark | Blue

  /** The theme a fresh provider starts with. */
  const DefaultTheme: Theme := Light

  /** The theme after `prev`: light goes to dark, dark to blue, and anything else to light. */
  function NextTheme(prev: Theme): (r: Theme)
    ensures r != prev
    ensures prev.Light? <==> r.Dark?
    ensures prev.Dark? <==> r.Blue?
    ensures prev.Blue? <==> r.Light?
  {
    if prev == Light then Dark else if prev == Dark then Blue else Light
  }

  /** The cycle has length exactly three. */
  lemma CycleOfThree(t: Theme)
    ensures NextTheme(NextTheme(NextTheme(t))) == t
    ensures NextTheme(NextTheme(t)) != t
  {
  }

  /** The toggle never sends two themes to the same one. */
  lemma NextThemeInjective(a: Theme, b: Theme)
    requires NextTheme(a) == NextTheme(b)
    ensures a == b
  {
  }

  /** The provider's state: the current theme, which the toggle advances. */
  class ThemeProvider {
    var theme: Theme

    constructor ()
      ensures theme == DefaultTheme
    {
      theme := Light;
    }

    method ToggleTheme()
      modifies this
      ensures theme == NextTheme(old(theme))
    {
      theme := NextTheme(theme);
    }
  }

  /**
   * useTheme: the nearest provider, or a failure when the component is not
   * inside one.
   */
  function UseTheme(context: ThemeProvider?): (r: Result<ThemeProvider, string>)
    ensures r.Success? <==> context != null
    ensures r.Success? ==> r.value == context
    ensures r.Failure? ==> r.error == "useTheme must be used within ThemeProvider"
  {
    if context == null then Failure("useTheme must be used within ThemeProvider") else Success(context as ThemeProvider)
  }

  /** Three toggles bring a provider back to the theme it had. */
  method ToggleThrice(provider: ThemeProvider)
    modifies provider
    ensures provider.theme == old(provider.theme)
  {
    provider.ToggleTheme();
    provider.ToggleTheme();
    provider.ToggleTheme();
    CycleOfThree(old(provider.theme));
  }
}
