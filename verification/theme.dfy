/**
  The day/night theme of the clock widget (src/App.jsx): the hour of each
  tick selects `"light"` or `"dark"`, and the theme selects the background
  image. The theme is kept as the string the component stores, because the
  background test compares it against `"dark"` only.
 */
module Theme {

  const Light: string := "light"
  const Dark: string := "dark"

  /** The first hour of daytime (inclusive) and the first hour of night (exclusive end of day). */
  const DayStart: nat := 6
  const DayEnd: nat := 18

  predicate IsDaytime(hour: nat) {
    DayStart <= hour < DayEnd
  }

  /** The theme a tick at `hour` selects. */
  function ThemeFor(hour: nat): (t: string)
    ensures t == Light <==> IsDaytime(hour)
    ensures t == Dark <==> !IsDaytime(hour)
  {
    if DayStart <= hour && hour < DayEnd then Light else Dark
  }

  /** The two bundled background images. */
  datatype Background = NightImage | DayImage

  /** The background for a stored theme value: night for `"dark"`, day for anything else. */
  function BackgroundFor(theme: string): (b: Background)
    ensures b == NightImage <==> theme == Dark
    ensures b == DayImage <==> theme != Dark
  {
    if theme == Dark then NightImage else DayImage
  }

  /** The boundary hours: 6 and 17 are day, 5 and 18 are night. */
  lemma ThemeBoundaries()
    ensures ThemeFor(5) == Dark && ThemeFor(6) == Light
    ensures ThemeFor(17) == Light && ThemeFor(18) == Dark
  {
  }

  /** Once a tick has set the theme, the day image shows exactly during daytime hours. */
  lemma BackgroundByHour(hour: nat)
    ensures BackgroundFor(ThemeFor(hour)) == DayImage <==> IsDaytime(hour)
  {
  }
}
