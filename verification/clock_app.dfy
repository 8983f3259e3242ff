/**
  The state of the clock widget (the `App` component of src/App.jsx) as an
  immutable record, and every callback that writes it as an event handled
  by the pure reducer `Step`. The timer, the geolocation sensor and the
  HTTP lookup are outside the model: their outcomes arrive as events.
 */
module ClockApp {
  import opened Wrappers
  import opened TimeFormat
  import opened Theme
  import opened Geocode

  /** The coordinates reported by the geolocation sensor, never computed with. */
  datatype Coords = Coords(latitude: real, longitude: real)

  /** The five `useState` slots of the component. */
  datatype State = State(
    time: Clock,
    location: Option<Coords>,
    address: string,
    error: Option<string>,
    theme: string)

  /** Everything that can write the state. */
  datatype Event =
    | Tick(now: Clock)                     // the one-second interval fires
    | GeolocationUnsupported               // `navigator.geolocation` is absent
    | GeolocationFailed                    // the error callback of `getCurrentPosition`
    | GeolocationSucceeded(coords: Coords) // the success callback of `getCurrentPosition`
    | LookupReplied(response: Response)    // the reverse-geocoding request settled

  const Unsupported: string := "Geolocation is not supported by your browser"
  const Unavailable: string := "Unable to retrieve your location"

  /** The state right after mounting at time `now`: no location, no address, no error, dark theme. */
  function Init(now: Clock): (s: State)
    ensures s.time == now && s.theme == Dark
    ensures s.location.None? && s.address == "" && s.error.None?
    ensures !ShowAddress(s) && !ShowError(s)
  {
    State(now, None, "", None, Dark)
  }

  /**
    The address line is rendered when a location is present and the
    address is truthy; under the invariant the address alone decides.
   */
  predicate ShowAddress(s: State)
    ensures ShowAddress(s) ==> s.location.Some?
    ensures Inv(s) ==> (ShowAddress(s) <==> s.address != "")
  {
    s.location.Some? && s.address != ""
  }

  /** The error line is rendered when the error is truthy; under the invariant, whenever one is set. */
  predicate ShowError(s: State)
    ensures ShowError(s) ==> s.error.Some?
    ensures Inv(s) ==> (ShowError(s) <==> s.error.Some?)
  {
    s.error.Some? && s.error.value != ""
  }

  /** The background the rendered page uses: night for `"dark"`, and day only in daytime under the invariant. */
  function BackgroundOf(s: State): (b: Background)
    ensures b == NightImage <==> s.theme == Dark
    ensures Inv(s) && b == DayImage ==> IsDaytime(s.time.hour)
  {
    BackgroundFor(s.theme)
  }

  /** Every message the component ever stores as its error. */
  predicate KnownError(e: string) {
    e == Unsupported || e == Unavailable || e == FetchFailed
  }

  /**
    What holds of every state the component can reach: an address only
    after a location, only the three known error messages, and a theme
    that is either the initial `"dark"` or the one the current time selects.
   */
  predicate Inv(s: State) {
    && (s.address != "" ==> s.location.Some?)
    && (s.error.Some? ==> KnownError(s.error.value))
    && (s.theme == Dark || s.theme == ThemeFor(s.time.hour))
  }

  /**
    The reducer. A lookup reply is only possible once a location is set
    (the lookup effect runs only while `location` is non-null), so a
    reply in a state without a location changes nothing.
   */
  function Step(s: State, e: Event): (r: State)
    ensures s.location.Some? ==> r.location.Some?
    ensures s.address != "" ==> r.address != ""
    ensures Inv(s) ==> Inv(r)
  {
    match e
    case Tick(now) => s.(time := now, theme := ThemeFor(now.hour))
    case GeolocationUnsupported => s.(error := Some(Unsupported))
    case GeolocationFailed => s.(error := Some(Unavailable))
    case GeolocationSucceeded(c) => s.(location := Some(c))
    case LookupReplied(resp) =>
      if s.location.None? then s
      else
        match Resolve(resp)
        case SetAddress(a) => s.(address := a)
        case SetError(m) => s.(error := Some(m))
  }

  /** The state after handling `events` in order. */
  function Run(s: State, events: seq<Event>): State
    decreases |events|
  {
    if events == [] then s else Run(Step(s, events[0]), events[1..])
  }

  /** Handling any sequence of events preserves the invariant. */
  lemma {:induction false} RunPreservesInv(s: State, events: seq<Event>)
    requires Inv(s)
    ensures Inv(Run(s, events))
    decreases |events|
  {
    if events != [] {
      RunPreservesInv(Step(s, events[0]), events[1..]);
    }
  }

  /** Every reachable state satisfies the invariant. */
  lemma ReachableInv(now: Clock, events: seq<Event>)
    ensures Inv(Run(Init(now), events))
  {
    RunPreservesInv(Init(now), events);
  }

  /**
    In every reachable state the address line shows exactly when the
    address is non-empty, and the error line exactly when an error is set.
   */
  lemma ReachableDisplay(now: Clock, events: seq<Event>)
    ensures ShowAddress(Run(Init(now), events)) <==> Run(Init(now), events).address != ""
    ensures ShowError(Run(Init(now), events)) <==> Run(Init(now), events).error.Some?
  {
    ReachableInv(now, events);
  }

  /** In every reachable state the day image shows only during daytime hours. */
  lemma ReachableBackground(now: Clock, events: seq<Event>)
    ensures BackgroundOf(Run(Init(now), events)) == DayImage ==> IsDaytime(Run(Init(now), events).time.hour)
  {
    ReachableInv(now, events);
  }

  /** A tick sets the time and the theme its hour selects, and nothing else. */
  lemma TickFrame(s: State, now: Clock)
    ensures Step(s, Tick(now)).time == now
    ensures Step(s, Tick(now)).theme == Light <==> IsDaytime(now.hour)
    ensures Step(s, Tick(now)).theme == Dark <==> !IsDaytime(now.hour)
    ensures Step(s, Tick(now)).location == s.location
    ensures Step(s, Tick(now)).address == s.address
    ensures Step(s, Tick(now)).error == s.error
  {
  }

  /** Once any tick has been handled, the theme follows the current hour, whatever came after. */
  lemma {:induction false} ThemeFollowsLastTick(s: State, events: seq<Event>, k: nat)
    requires k < |events| && events[k].Tick?
    ensures Run(s, events).theme == ThemeFor(Run(s, events).time.hour)
    decreases |events|
  {
    if k == 0 {
      ThemeStaysSynced(Step(s, events[0]), events[1..]);
    } else {
      ThemeFollowsLastTick(Step(s, events[0]), events[1..], k - 1);
    }
  }

  /** Until the first tick the theme stays the initial `"dark"`, whatever else happens. */
  lemma {:induction false} DarkUntilFirstTick(s: State, events: seq<Event>)
    requires s.theme == Dark
    requires forall i :: 0 <= i < |events| ==> !events[i].Tick?
    ensures Run(s, events).theme == Dark
    decreases |events|
  {
    if events != [] {
      DarkUntilFirstTick(Step(s, events[0]), events[1..]);
    }
  }

  /** A theme that matches the clock keeps matching it through any events. */
  lemma {:induction false} ThemeStaysSynced(s: State, events: seq<Event>)
    requires s.theme == ThemeFor(s.time.hour)
    ensures Run(s, events).theme == ThemeFor(Run(s, events).time.hour)
    decreases |events|
  {
    if events != [] {
      ThemeStaysSynced(Step(s, events[0]), events[1..]);
    }
  }

  /** Geolocation outcomes: each failure overwrites the error, success only sets the location. */
  lemma GeolocationEffects(s: State, c: Coords)
    ensures Step(s, GeolocationUnsupported) == s.(error := Some(Unsupported))
    ensures Step(s, GeolocationFailed) == s.(error := Some(Unavailable))
    ensures Step(s, GeolocationSucceeded(c)) == s.(location := Some(c))
  {
  }

  /**
    Lookup outcomes once a location is set: a reply with results sets the
    address and keeps the error; zero results set `"Location not found"`
    and keep the error; a failure overwrites the error and keeps the address.
   */
  lemma LookupEffects(s: State, resp: Response)
    requires s.location.Some?
    ensures Resolve(resp).SetAddress? ==> Step(s, LookupReplied(resp)) == s.(address := Resolve(resp).address)
    ensures Resolve(resp).SetError? ==> Step(s, LookupReplied(resp)) == s.(error := Some(FetchFailed))
    ensures Step(s, LookupReplied(Json(Some([])))) == s.(address := NotFound)
    ensures Step(s, LookupReplied(FetchError)) == s.(error := Some(FetchFailed))
  {
  }

  /** Without a location no lookup is running, so a reply cannot change anything. */
  lemma NoLookupWithoutLocation(s: State, resp: Response)
    requires s.location.None?
    ensures Step(s, LookupReplied(resp)) == s
  {
  }

  /**
    If geolocation never succeeds (unsupported or failed), no location is
    ever set and no address is ever shown.
   */
  lemma {:induction false} NoLocationNoAddress(s: State, events: seq<Event>)
    requires s.location.None? && s.address == ""
    requires forall i :: 0 <= i < |events| ==> !events[i].GeolocationSucceeded?
    ensures Run(s, events).location.None?
    ensures Run(s, events).address == ""
    ensures !ShowAddress(Run(s, events))
    decreases |events|
  {
    if events != [] {
      NoLocationNoAddress(Step(s, events[0]), events[1..]);
    }
  }

  /**
    From mounting, as long as geolocation never succeeds (it is unsupported
    or fails), the address line is never shown.
   */
  lemma MountNoGeolocation(now: Clock, events: seq<Event>)
    requires forall i :: 0 <= i < |events| ==> !events[i].GeolocationSucceeded?
    ensures Run(Init(now), events).location.None?
    ensures !ShowAddress(Run(Init(now), events))
  {
    NoLocationNoAddress(Init(now), events);
  }
}
