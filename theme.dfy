/**
 * The Android `Constants` the model depends on: the theme option stored in
 * the preferences and parsed back by exact name.
 */
module AppConstants {
  import opened Wrappers

  datatype ThemeOption = Light | Dark | System
  {
    /** The enum constant's `name`. */
    function Name(): string
    {
      match this
      case Light => "LIGHT"
      case Dark => "DARK"
      case System => "SYSTEM"
    }

    function DisplayName(): string
    {
      match this
      case Light => "Light"
      case Dark => "Dark"
      case System => "System"
    }
  }

  /** `ThemeOption.fromRaw`: the first option, in declaration order, whose name equals the text exactly; else SYSTEM. */
  function ThemeFromRaw(raw: Option<string>): (t: ThemeOption)
    ensures raw.Some? && (raw.value == Light.Name() || raw.value == Dark.Name() || raw.value == System.Name()) ==> t.Name() == raw.value
    ensures t != System ==> raw == Some(t.Name())
  {
    if raw == Some(Light.Name()) then Light
    else if raw == Some(Dark.Name()) then Dark
    else if raw == Some(System.Name()) then System
    else System
  }

  /** Every option's name parses back to it. */
  lemma ThemeRoundTrip(t: ThemeOption)
    ensures ThemeFromRaw(Some(t.Name())) == t
  {
  }

  /** Nothing, and any text that is not exactly a name, gives SYSTEM; the match is case-sensitive. */
  lemma ThemeFallback(raw: string)
    requires raw != Light.Name() && raw != Dark.Name()
    ensures ThemeFromRaw(None) == System && ThemeFromRaw(Some(raw)) == System
    ensures ThemeFromRaw(Some("light")) == System && ThemeFromRaw(Some("Dark")) == System
  {
  }
}
