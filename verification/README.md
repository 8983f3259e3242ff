# Clock widget: a verified model of its state logic

The repository is a single React component (`App` in `src/App.jsx`) that
shows the current time and date, switches between a night and a day
background image by hour of day, and shows the user's "city, country"
obtained by reverse-geocoding the browser's geolocation through the
OpenCage API. This project models the pure logic of that component in
Dafny:

- `TimeFormat`: `formatTime` (each field `toString()`-ed, `padStart(2, "0")`,
  joined with `:`), built from models of `Number.prototype.toString` and
  `String.prototype.padStart`, with a parser `ParseTime` as its inverse.
- `Theme`: the hour rule choosing `"light"` or `"dark"` and the background
  choice made from the stored theme string.
- `Geocode`: the address extraction of `fetchAddress` — the `||` chains for
  locality and country, the `"Location not found"` case and the catch-all
  error path — as a pure function of the lookup's `Response`.
- `ClockApp`: the five `useState` slots as one immutable `State`, every
  callback that writes them as an `Event`, the reducer `Step`, the two render
  conditions, and the invariant every reachable state keeps.
- `Wrappers`: `Option`, standing in for `null`.

JavaScript `||` is modelled on strings: a `components` key that is absent
(`undefined`) and one holding `""` both fall through to the next candidate.
Coordinates are a pair of reals that the model never computes with.

The code never checks `response.ok` (src/App.jsx:37-38), so a non-success
HTTP status does not by itself reach the `catch`: the JSON body decides the
outcome. A body without `results`, or a first result without `components`,
throws inside the `try` and ends in the error message; a body with
`results: []` gives `"Location not found"`. The `Response` datatype makes
these cases explicit.

## Model

| member | source | states |
|---|---|---|
| Theme.ThemeFor | src/App.jsx:66-67 | the theme is `"light"` exactly when 6 <= hour < 18 and `"dark"` exactly otherwise |
| Theme.ThemeBoundaries | src/App.jsx:66-67 | hours 6 and 17 give light, hours 5 and 18 give dark |
| Theme.BackgroundFor | src/App.jsx:91 | the night image exactly for the theme `"dark"`, the day image for every other theme value |
| Theme.BackgroundByHour | src/App.jsx:91 | after a tick at some hour, the day image shows exactly when that hour is daytime |
| TimeFormat.NatToString | src/App.jsx:74-76 | `toString()` of a natural is a non-empty digit string without a leading zero, one character exactly below 10 and at most two exactly below 100 |
| TimeFormat.NatToStringValue | src/App.jsx:74-76 | the digits `toString()` produces denote the number itself |
| TimeFormat.PadStart | src/App.jsx:74-76 | `padStart` yields length max(len, width), the original string as suffix and only fill characters before it |
| TimeFormat.TwoDigits | src/App.jsx:74-76 | a field below 100 becomes exactly its tens digit and units digit; wider values are not truncated |
| TimeFormat.FormatTime | src/App.jsx:73-78 | for a valid clock the text is tens and units of hour, `:`, of minute, `:`, of second |
| TimeFormat.FormatShape | src/App.jsx:73-78 | for a valid clock the text has 8 characters, `:` at indices 2 and 5 and digits everywhere else |
| TimeFormat.ParseTime | src/App.jsx:73-78 | the parse-back accepts only 8-character `HH:MM:SS` texts whose fields are in clock range |
| TimeFormat.FormatThenParse | src/App.jsx:73-78 | parsing the formatted text of a valid clock gives back its hour, minute and second |
| TimeFormat.ParseThenFormat | src/App.jsx:73-78 | every text the parser accepts is exactly the formatted text of the clock it parses to |
| TimeFormat.FormatExample | src/App.jsx:73-78 | 1:02:03 is shown as `01:02:03` |
| Geocode.Field | src/App.jsx:41-46 | a present key reads its stored value; an absent key reads as the equally falsy empty string |
| Geocode.FirstTruthy | src/App.jsx:41-46 | an `a \|\| b \|\| ... \|\| fallback` chain yields the first non-empty candidate, and the fallback when all are empty |
| Geocode.Locality | src/App.jsx:41-45 | the locality is never empty and is the city, town or village field or `"Unknown city"` |
| Geocode.Country | src/App.jsx:46 | the country is never empty and is the `country` field or `"Unknown country"` |
| Geocode.ComposeAddress | src/App.jsx:47 | the address is the locality, then `", "`, then the country, and nothing else |
| Geocode.Resolve | src/App.jsx:36-53 | the outcome is the fetch-failure message exactly when the fetch fails, `results` is missing or `results[0]` has no `components`; an address otherwise, never empty; zero results give `"Location not found"` |
| Geocode.LocalityPriority | src/App.jsx:41-45 | city wins whenever truthy, then town, then village, then `"Unknown city"`; empty and absent fields are skipped |
| Geocode.CountryFallback | src/App.jsx:46 | the country is the `country` field when truthy, else `"Unknown country"` |
| Geocode.ResolvedAddressShape | src/App.jsx:40-47 | a result with components yields exactly locality + `", "` + country, both parts non-empty |
| Geocode.ResolveUsesFirstResultOnly | src/App.jsx:40 | two result lists with the same first entry resolve to the same outcome |
| Geocode.CityBeatsTown | src/App.jsx:41-47 | `{city: "X", town: "Y"}` gives `"X, Unknown country"` |
| Geocode.TownAlone | src/App.jsx:41-47 | `{town: "Y"}` gives `"Y, Unknown country"` |
| Geocode.EmptyCityFallsThrough | src/App.jsx:41-47 | an empty city falls through: `{city: "", village: "Z", country: "C"}` gives `"Z, C"` |
| Geocode.NoFields | src/App.jsx:41-47 | `{}` gives `"Unknown city, Unknown country"` |
| ClockApp.Init | src/App.jsx:7-11 | at mount the time is the given clock, location and error are null, the address is empty, the theme is `"dark"` whatever the time, and neither line shows |
| ClockApp.ShowAddress | src/App.jsx:106 | the address line needs a location; in every invariant state it shows exactly when the address is non-empty |
| ClockApp.ShowError | src/App.jsx:114 | the error line needs an error; in every invariant state it shows exactly when an error is set |
| ClockApp.BackgroundOf | src/App.jsx:91 | the page uses the night image exactly for theme `"dark"`, and in invariant states the day image only in daytime |
| ClockApp.Step | src/App.jsx:15-67 | no event clears a location or empties a non-empty address, and every event preserves the invariant |
| ClockApp.RunPreservesInv | src/App.jsx:32 | any sequence of events keeps: address only with a location, only known error messages, theme dark or matching the hour |
| ClockApp.ReachableInv | src/App.jsx:32 | every state reachable from mounting satisfies that invariant |
| ClockApp.ReachableDisplay | src/App.jsx:106-114 | in reachable states the address line shows exactly when the address is non-empty and the error line exactly when an error is set |
| ClockApp.ReachableBackground | src/App.jsx:91 | in reachable states the day image shows only during daytime hours |
| ClockApp.TickFrame | src/App.jsx:61-67 | a tick sets the time and the theme its hour selects; location, address and error are untouched |
| ClockApp.ThemeFollowsLastTick | src/App.jsx:61-67 | after any tick the theme matches the current hour, whatever events follow |
| ClockApp.DarkUntilFirstTick | src/App.jsx:11-67 | without a tick the theme stays `"dark"` through any events |
| ClockApp.ThemeStaysSynced | src/App.jsx:61-67 | a theme matching the clock keeps matching it through any events |
| ClockApp.GeolocationEffects | src/App.jsx:15-27 | unsupported and failed geolocation overwrite the error with their messages and change nothing else; success only sets the location |
| ClockApp.LookupEffects | src/App.jsx:39-53 | with a location, an address outcome sets only the address, zero results set `"Location not found"` keeping the error, a failure overwrites only the error |
| ClockApp.NoLookupWithoutLocation | src/App.jsx:32 | without a location a lookup reply changes nothing |
| ClockApp.MountNoGeolocation | src/App.jsx:8-32 | from mounting, if geolocation never succeeds, the location stays null and the address line never shows |
| ClockApp.NoLocationNoAddress | src/App.jsx:25-32 | if geolocation never succeeds, the location stays null, the address stays empty and is never shown |

## Left out

- Rendering, JSX, CSS classes and style objects, and the bundled image files: the model stops at which image and which lines are shown.
- The `useEffect` lifecycle, `setInterval` at one second and `clearInterval` on teardown: ticks are events; scheduling and teardown are not modelled.
- `navigator.geolocation`, `fetch`, `response.json()`, the OpenCage URL and the API key from the build environment: network and host I/O, modelled only through their outcomes (`Event`, `Response`).
- `formatDate`: it is entirely `toLocaleDateString("en-US", ...)`, a locale library whose calendar logic is not part of this model.
- `Date` objects, time zones and floating-point coordinates: a tick carries hour, minute and second as naturals, and coordinates are a pair of reals the model only stores (JavaScript doubles are not modelled).
- JSON values other than strings inside `components` (numbers, `null`, nested objects): a key is either absent or holds a string.
- The unused `meta` import.
