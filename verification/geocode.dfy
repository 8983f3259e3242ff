/**
  The address extraction inside `fetchAddress` (src/App.jsx): the reply of
  the reverse-geocoding service is reduced either to an address line
  `"{locality}, {country}"`, to `"Location not found"`, or to an error
  message. The HTTP request itself is not modelled; its outcome is the
  `Response` given to `Resolve`.
 */
module Geocode {
  import opened Wrappers

  /**
    The `components` object of a result, as its string-valued keys. A key
    that is absent reads as `undefined`, which is falsy like `""`.
   */
  type Components = map<string, string>

  /** One entry of `data.results`; `components` may be missing from the body. */
  datatype GeocodeResult = GeocodeResult(components: Option<Components>)

  /**
    What `fetch` followed by `response.json()` produced: a rejected promise
    (network error or a body that is not JSON), or a parsed body whose
    `results` array may be missing.
   */
  datatype Response = FetchError | Json(results: Option<seq<GeocodeResult>>)

  /** What the lookup writes into the widget's state. */
  datatype LookupOutcome = SetAddress(address: string) | SetError(message: string)

  const UnknownCity: string := "Unknown city"
  const UnknownCountry: string := "Unknown country"
  const NotFound: string := "Location not found"
  const FetchFailed: string := "Failed to fetch location details"

  /** Property access `components[key]`, with `undefined` read as the equally falsy `""`. */
  function Field(c: Components, key: string): (v: string)
    ensures key in c ==> v == c[key]
    ensures key !in c ==> v == ""
  {
    if key in c then c[key] else ""
  }

  /** `cs[i]` is the first truthy (non-empty) candidate. */
  predicate FirstTruthyAt(cs: seq<string>, i: int) {
    0 <= i < |cs| && cs[i] != "" && forall j :: 0 <= j < i ==> cs[j] == ""
  }

  /** The JavaScript chain `cs[0] || cs[1] || ... || fallback` over strings. */
  function FirstTruthy(cs: seq<string>, fallback: string): (r: string)
    ensures forall i :: FirstTruthyAt(cs, i) ==> r == cs[i]
    ensures (forall j :: 0 <= j < |cs| ==> cs[j] == "") ==> r == fallback
  {
    if cs == [] then fallback
    else if cs[0] != "" then cs[0]
    else
      var r := FirstTruthy(cs[1..], fallback);
      assert forall i :: FirstTruthyAt(cs, i) ==> FirstTruthyAt(cs[1..], i - 1);
      r
  }

  /** `components.city || components.town || components.village || "Unknown city"`. */
  function Locality(c: Components): (r: string)
    ensures r != ""
    ensures r == Field(c, "city") || r == Field(c, "town") || r == Field(c, "village") || r == UnknownCity
  {
    var cs := [Field(c, "city"), Field(c, "town"), Field(c, "village")];
    assert cs[0] != "" ==> FirstTruthyAt(cs, 0);
    assert cs[0] == "" && cs[1] != "" ==> FirstTruthyAt(cs, 1);
    assert cs[0] == "" && cs[1] == "" && cs[2] != "" ==> FirstTruthyAt(cs, 2);
    FirstTruthy(cs, UnknownCity)
  }

  /** `components.country || "Unknown country"`. */
  function Country(c: Components): (r: string)
    ensures r != ""
    ensures r == Field(c, "country") || r == UnknownCountry
  {
    var cs := [Field(c, "country")];
    assert cs[0] != "" ==> FirstTruthyAt(cs, 0);
    FirstTruthy(cs, UnknownCountry)
  }

  /** The address line for one result. */
  function ComposeAddress(c: Components): (r: string)
    ensures |r| == |Locality(c)| + 2 + |Country(c)|
    ensures r[..|Locality(c)|] == Locality(c)
    ensures r[|Locality(c)|..|Locality(c)| + 2] == ", "
    ensures r[|r| - |Country(c)|..] == Country(c)
  {
    Locality(c) + ", " + Country(c)
  }

  /**
    The whole of `fetchAddress` after the request: anything that throws
    inside the `try` (a rejected fetch, a body without `results`, a first
    result without `components`) ends in the catch-all error message.
   */
  function Resolve(resp: Response): (o: LookupOutcome)
    ensures o.SetError? <==>
      (resp.FetchError? || resp.results.None?
       || (|resp.results.value| > 0 && resp.results.value[0].components.None?))
    ensures o.SetError? ==> o.message == FetchFailed
    ensures o.SetAddress? ==> o.address != ""
    ensures resp.Json? && resp.results == Some([]) ==> o == SetAddress(NotFound)
  {
    match resp
    case FetchError => SetError(FetchFailed)
    case Json(None) => SetError(FetchFailed)
    case Json(Some(results)) =>
      if |results| > 0 then
        match results[0].components
        case None => SetError(FetchFailed)
        case Some(c) => SetAddress(ComposeAddress(c))
      else
        SetAddress(NotFound)
  }

  /** City wins when truthy; otherwise town, then village, then the fallback. */
  lemma LocalityPriority(c: Components)
    ensures Field(c, "city") != "" ==> Locality(c) == Field(c, "city")
    ensures Field(c, "city") == "" && Field(c, "town") != "" ==> Locality(c) == Field(c, "town")
    ensures Field(c, "city") == "" && Field(c, "town") == "" && Field(c, "village") != ""
            ==> Locality(c) == Field(c, "village")
    ensures Field(c, "city") == "" && Field(c, "town") == "" && Field(c, "village") == ""
            ==> Locality(c) == UnknownCity
  {
    var cs := [Field(c, "city"), Field(c, "town"), Field(c, "village")];
    if cs[0] != "" {
      assert FirstTruthyAt(cs, 0);
    } else if cs[1] != "" {
      assert FirstTruthyAt(cs, 1);
    } else if cs[2] != "" {
      assert FirstTruthyAt(cs, 2);
    }
  }

  /** The country is the `country` field when truthy, else the fallback. */
  lemma CountryFallback(c: Components)
    ensures Field(c, "country") != "" ==> Country(c) == Field(c, "country")
    ensures Field(c, "country") == "" ==> Country(c) == UnknownCountry
  {
    if Field(c, "country") != "" {
      assert FirstTruthyAt([Field(c, "country")], 0);
    }
  }

  /** A non-empty result list with components yields exactly `"{locality}, {country}"`, both parts non-empty. */
  lemma ResolvedAddressShape(xs: seq<GeocodeResult>)
    requires |xs| > 0 && xs[0].components.Some?
    ensures Resolve(Json(Some(xs)))
            == SetAddress(Locality(xs[0].components.value) + ", " + Country(xs[0].components.value))
    ensures Locality(xs[0].components.value) != "" && Country(xs[0].components.value) != ""
  {
    LocalityPriority(xs[0].components.value);
    CountryFallback(xs[0].components.value);
  }

  /** Only `results[0]` is consulted: the rest of the array never matters. */
  lemma ResolveUsesFirstResultOnly(xs: seq<GeocodeResult>, ys: seq<GeocodeResult>)
    requires |xs| > 0 && |ys| > 0 && xs[0] == ys[0]
    ensures Resolve(Json(Some(xs))) == Resolve(Json(Some(ys)))
  {
  }

  /** The four keys the extraction reads are distinct strings. */
  lemma KeysDistinct()
    ensures "city" != "town" && "city" != "village" && "city" != "country"
    ensures "town" != "village" && "town" != "country" && "village" != "country"
  {
    assert "city"[0] != "town"[0] && "city"[0] != "village"[0];
    assert "city"[1] != "country"[1] && "town"[0] != "village"[0];
    assert "town"[0] != "country"[0] && "village"[0] != "country"[0];
  }

  /** Worked example: with both city and town present, the city is used. */
  lemma CityBeatsTown()
    ensures Resolve(Json(Some([GeocodeResult(Some(map["city" := "X", "town" := "Y"]))])))
            == SetAddress("X, Unknown country")
  {
    var c := map["city" := "X", "town" := "Y"];
    KeysDistinct();
    assert Field(c, "city") == "X" && Field(c, "country") == "";
    LocalityPriority(c);
    CountryFallback(c);
    assert Locality(c) == "X" && Country(c) == UnknownCountry;
    assert ComposeAddress(c) == "X, Unknown country";
  }

  /** Worked example: a town alone is used. */
  lemma TownAlone()
    ensures Resolve(Json(Some([GeocodeResult(Some(map["town" := "Y"]))])))
            == SetAddress("Y, Unknown country")
  {
    var c := map["town" := "Y"];
    KeysDistinct();
    assert Field(c, "city") == "" && Field(c, "town") == "Y" && Field(c, "country") == "";
    LocalityPriority(c);
    CountryFallback(c);
    assert Locality(c) == "Y" && Country(c) == UnknownCountry;
    assert ComposeAddress(c) == "Y, Unknown country";
  }

  /** Worked example: an empty city falls through to the village. */
  lemma EmptyCityFallsThrough()
    ensures Resolve(Json(Some([GeocodeResult(Some(map["city" := "", "village" := "Z", "country" := "C"]))])))
            == SetAddress("Z, C")
  {
    var c := map["city" := "", "village" := "Z", "country" := "C"];
    KeysDistinct();
    assert Field(c, "city") == "" && Field(c, "town") == "" && Field(c, "village") == "Z" && Field(c, "country") == "C";
    LocalityPriority(c);
    CountryFallback(c);
    assert Locality(c) == "Z" && Country(c) == "C";
    assert ComposeAddress(c) == "Z, C";
  }

  /** Worked example: no fields at all give both fallbacks. */
  lemma NoFields()
    ensures Resolve(Json(Some([GeocodeResult(Some(map[]))])))
            == SetAddress("Unknown city, Unknown country")
  {
    var c: Components := map[];
    KeysDistinct();
    LocalityPriority(c);
    CountryFallback(c);
    assert Locality(c) == UnknownCity && Country(c) == UnknownCountry;
    assert ComposeAddress(c) == "Unknown city, Unknown country";
  }
}
