/** The age page: the age categories, the result-card guard and the
    `fetchAge` lookup. */
module Age {
  import opened Wrappers
  import opened Text

  const ApiBase := "https://api.agify.io/?name="
  const EmptyNameError := "Por favor ingresa un nombre"
  const FetchError := "Error al obtener datos. Intenta de nuevo."

  /** An agify.io response; `age` is `null` for names without data. */
  datatype AgeData = AgeData(name: string, age: Option<int>, count: int)

  /** The categories of `getAgeCategory`, in increasing order of age. */
  datatype AgeGroup = Joven | Adulto | Anciano {
    function Label(): string {
      match this
      case Joven => "Joven"
      case Adulto => "Adulto"
      case Anciano => "Anciano"
    }

    function Color(): string {
      match this
      case Joven => "#4ade80"
      case Adulto => "#667eea"
      case Anciano => "#f59e0b"
    }

    function Rank(): nat {
      match this
      case Joven => 0
      case Adulto => 1
      case Anciano => 2
    }
  }

  /** `getAgeCategory`: thresholds at 18 and 60. */
  function AgeCategory(age: int): AgeGroup {
    if age < 18 then Joven else if age < 60 then Adulto else Anciano
  }

  /** Each category holds exactly its interval of ages, with its label and
      colour. */
  lemma AgeCategorySpec(age: int)
    ensures AgeCategory(age) == Joven <==> age < 18
    ensures AgeCategory(age) == Adulto <==> 18 <= age < 60
    ensures AgeCategory(age) == Anciano <==> 60 <= age
    ensures age < 18 ==> AgeCategory(age).Label() == "Joven" && AgeCategory(age).Color() == "#4ade80"
    ensures 18 <= age < 60 ==> AgeCategory(age).Label() == "Adulto" && AgeCategory(age).Color() == "#667eea"
    ensures 60 <= age ==> AgeCategory(age).Label() == "Anciano" && AgeCategory(age).Color() == "#f59e0b"
  {
  }

  /** An older age never gets a younger category. */
  lemma AgeCategoryMonotone(a: int, b: int)
    requires a <= b
    ensures AgeCategory(a).Rank() <= AgeCategory(b).Rank()
  {
  }

  /** Labels and colours tell the categories apart. */
  lemma AgeGroupDistinct(g: AgeGroup, h: AgeGroup)
    ensures g.Label() == h.Label() <==> g == h
    ensures g.Color() == h.Color() <==> g == h
  {
    if g != h {
      assert g.Label()[1] != h.Label()[1] || |g.Label()| != |h.Label()|;
      assert g.Color()[1] != h.Color()[1];
    }
  }

  /** `ageData && ageData.age`: the card needs a result with a non-zero,
      non-null age. */
  predicate ResultCardVisible(ageData: Option<AgeData>) {
    ageData.Some? && ageData.value.age.Some? && ageData.value.age.value != 0
  }

  /** The request URL embeds the raw name, not trimmed. */
  function RequestUrl(name: string): string {
    ApiBase + name
  }

  class AgePage {
    var name: string
    var ageData: Option<AgeData>
    var loading: bool
    var error: string
    ghost var inFlight: multiset<string>

    /** While a request is loading, no result card is shown and some request is
        still pending to end the loading. */
    ghost predicate Valid()
      reads this
    {
      loading ==> ageData == None && |inFlight| > 0
    }

    constructor ()
      ensures Valid()
      ensures name == "" && ageData == None && !loading && error == ""
      ensures inFlight == multiset{}
    {
      name, ageData, loading, error := "", None, false, "";
      inFlight := multiset{};
    }

    method SetName(value: string)
      requires Valid()
      modifies this
      ensures Valid()
      ensures name == value
      ensures ageData == old(ageData) && loading == old(loading) && error == old(error)
      ensures inFlight == old(inFlight)
    {
      name := value;
    }

    /** `fetchAge` up to its `await`. */
    method Begin() returns (request: Option<string>)
      requires Valid()
      modifies this
      ensures Valid()
      ensures name == old(name)
      ensures IsBlank(name) ==>
        && request == None && error == EmptyNameError
        && ageData == old(ageData) && loading == old(loading) && inFlight == old(inFlight)
      ensures !IsBlank(name) ==>
        && request == Some(RequestUrl(name))
        && loading && error == "" && ageData == None && !ResultCardVisible(ageData)
        && inFlight == old(inFlight) + multiset{RequestUrl(name)}
    {
      if IsBlank(name) {
        error := EmptyNameError;
        request := None;
        return;
      }
      loading := true;
      error := "";
      ageData := None;
      var url := RequestUrl(name);
      inFlight := inFlight + multiset{url};
      request := Some(url);
    }

    method CompleteOk(url: string, payload: AgeData)
      requires Valid() && url in inFlight
      modifies this
      ensures Valid()
      ensures ageData == Some(payload) && !loading && error == old(error)
      ensures ResultCardVisible(ageData) <==> payload.age.Some? && payload.age.value != 0
      ensures name == old(name)
      ensures inFlight == old(inFlight) - multiset{url}
    {
      ageData := Some(payload);
      loading := false;
      inFlight := inFlight - multiset{url};
    }

    method CompleteErr(url: string)
      requires Valid() && url in inFlight
      modifies this
      ensures Valid()
      ensures error == FetchError && !loading && ageData == old(ageData)
      ensures name == old(name)
      ensures inFlight == old(inFlight) - multiset{url}
    {
      error := FetchError;
      loading := false;
      inFlight := inFlight - multiset{url};
    }
  }

  /** A name the service has no estimate for: the lookup succeeds, the
      payload is stored, no error is shown and no result card either. */
  method NullAgeShowsNothing(name: string)
    returns (stored: Option<AgeData>, message: string, card: bool)
    requires !IsBlank(name)
    ensures stored == Some(AgeData(name, None, 0)) && message == "" && !card
  {
    var page := new AgePage();
    page.SetName(name);
    var r := page.Begin();
    page.CompleteOk(r.value, AgeData(name, None, 0));
    stored, message, card := page.ageData, page.error, ResultCardVisible(page.ageData);
  }
}
