/** The universities page: the `fetchUniversities` lookup with its
    empty-result branch, and the results badge. */
module Universities {
  import opened Wrappers
  import opened Text
  import opened Uri

  const ApiBase := "http://universities.hipolabs.com/search?country="
  const EmptyCountryError := "Por favor ingresa un país"
  const NotFoundError := "No se encontraron universidades para este país. Intenta con el nombre en inglés."
  const FetchError := "Error al obtener datos. Verifica el nombre del país en inglés (ej: Dominican Republic)"

  datatype University = University(name: string, domains: seq<string>, webPages: seq<string>, country: string)

  /** The request URL: the raw country, percent-encoded, not trimmed. The
      query parameter decodes back to exactly what was typed. */
  function RequestUrl(country: string): (url: string)
    ensures |url| >= |ApiBase| && url[..|ApiBase|] == ApiBase
    ensures DecodeUriComponent(url[|ApiBase|..]) == Some(country)
  {
    var url := ApiBase + EncodeUriComponent(country);
    assert url[|ApiBase|..] == EncodeUriComponent(country);
    EncodeRoundTrip(country);
    url
  }

  /** The badge: `universities.length`, rendered only when positive. */
  function ResultsBadge(universities: seq<University>): (badge: Option<nat>)
    ensures badge.Some? <==> |universities| > 0
    ensures badge.Some? ==> badge.value == |universities|
  {
    if |universities| > 0 then Some(|universities|) else None
  }

  /** `response.data && response.data.length > 0` for a body that is a
      list of universities, or `null` (here `None`). */
  predicate HasResults(data: Option<seq<University>>) {
    data.Some? && |data.value| > 0
  }

  class UniversitiesPage {
    var country: string
    var universities: seq<University>
    var loading: bool
    var error: string
    ghost var inFlight: multiset<string>

    /** While a request is loading, no university is listed is shown and some request is
        still pending to end the loading. */
    ghost predicate Valid()
      reads this
    {
      loading ==> universities == [] && |inFlight| > 0
    }

    constructor ()
      ensures Valid()
      ensures country == "" && universities == [] && !loading && error == ""
      ensures inFlight == multiset{}
    {
      country, universities, loading, error := "", [], false, "";
      inFlight := multiset{};
    }

    method SetCountry(value: string)
      requires Valid()
      modifies this
      ensures Valid()
      ensures country == value
      ensures universities == old(universities) && loading == old(loading) && error == old(error)
      ensures inFlight == old(inFlight)
    {
      country := value;
    }

    /** `fetchUniversities` up to its `await`. */
    method Begin() returns (request: Option<string>)
      requires Valid()
      modifies this
      ensures Valid()
      ensures country == old(country)
      ensures IsBlank(country) ==>
        && request == None && error == EmptyCountryError
        && universities == old(universities) && loading == old(loading)
        && inFlight == old(inFlight)
      ensures !IsBlank(country) ==>
        && request == Some(RequestUrl(country))
        && loading && error == "" && universities == []
        && inFlight == old(inFlight) + multiset{RequestUrl(country)}
    {
      if IsBlank(country) {
        error := EmptyCountryError;
        request := None;
        return;
      }
      loading := true;
      error := "";
      universities := [];
      var url := RequestUrl(country);
      inFlight := inFlight + multiset{url};
      request := Some(url);
    }

    /** The request resolved: a non-empty list replaces the old one
        wholesale; anything else sets the not-found message, which differs
        from the transport-error message. */
    method CompleteOk(url: string, data: Option<seq<University>>)
      requires Valid() && url in inFlight
      modifies this
      ensures Valid()
      ensures !loading
      ensures HasResults(data) ==> universities == data.value && error == old(error)
      ensures HasResults(data) ==> ResultsBadge(universities) == Some(|data.value|)
      ensures !HasResults(data) ==>
        universities == old(universities) && error == NotFoundError && error != FetchError
      ensures country == old(country)
      ensures inFlight == old(inFlight) - multiset{url}
    {
      if HasResults(data) {
        universities := data.value;
      } else {
        error := NotFoundError;
      }
      loading := false;
      inFlight := inFlight - multiset{url};
    }

    method CompleteErr(url: string)
      requires Valid() && url in inFlight
      modifies this
      ensures Valid()
      ensures error == FetchError && !loading && universities == old(universities)
      ensures country == old(country)
      ensures inFlight == old(inFlight) - multiset{url}
    {
      error := FetchError;
      loading := false;
      inFlight := inFlight - multiset{url};
    }
  }

  /** One lookup on its own: afterwards exactly one of "results listed"
      and "error shown" holds, and nothing is loading. */
  method SingleLookup(country: string, outcome: Option<Option<seq<University>>>)
    returns (listed: seq<University>, message: string, stillLoading: bool)
    requires !IsBlank(country)
    ensures (|listed| > 0) != (message != "")
    ensures !stillLoading
    ensures outcome.Some? && HasResults(outcome.value) ==> listed == outcome.value.value
    ensures outcome.Some? && !HasResults(outcome.value) ==> message == NotFoundError
    ensures outcome.None? ==> message == FetchError
    ensures ResultsBadge(listed).Some? <==> message == ""
    ensures outcome.Some? && HasResults(outcome.value) ==> ResultsBadge(listed) == Some(|outcome.value.value|)
  {
    var page := new UniversitiesPage();
    page.SetCountry(country);
    var r := page.Begin();
    match outcome {
      case Some(data) => page.CompleteOk(r.value, data);
      case None => page.CompleteErr(r.value);
    }
    listed, message, stillLoading := page.universities, page.error, page.loading;
  }

  /** Two overlapping lookups, the one with results resolving first: the
      list from one country and the not-found message of the other are
      shown together. */
  method OverlapShowsListAndError(found: seq<University>)
    returns (listed: seq<University>, message: string)
    requires |found| > 0
    ensures listed == found && message == NotFoundError
  {
    var page := new UniversitiesPage();
    page.SetCountry("Atlantis");
    NotBlankWhenFirstVisible("Atlantis");
    var r1 := page.Begin();
    page.SetCountry("Chile");
    NotBlankWhenFirstVisible("Chile");
    var r2 := page.Begin();
    page.CompleteOk(r2.value, Some(found));
    page.CompleteOk(r1.value, Some([]));
    listed, message := page.universities, page.error;
  }
}
