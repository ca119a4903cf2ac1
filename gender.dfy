/** The gender page: the male/else display classification and the
    `fetchGender` lookup. */
module Gender {
  import opened Wrappers
  import opened Text

  const ApiBase := "https://api.genderize.io/?name="
  const EmptyNameError := "Por favor ingresa un nombre"
  const FetchError := "Error al obtener datos. Intenta de nuevo."

  /** A genderize.io response; `gender` is `null` when the service has no
      prediction. */
  datatype GenderData = GenderData(name: string, gender: Option<string>, probability: real, count: int)

  /** What the result card derives from `gender === 'male'`: card class,
      icon, badge colour and badge text. */
  datatype GenderView = GenderView(cardClass: string, icon: string, badgeColor: string, badge: string)

  const MaleView := GenderView("male-result", "maleOutline", "primary", "MASCULINO")
  const FemaleView := GenderView("female-result", "femaleOutline", "secondary", "FEMENINO")

  function Classify(gender: Option<string>): GenderView {
    if gender == Some("male") then MaleView else FemaleView
  }

  /** The classification is binary and only the exact string "male" gives
      the male view: "female", a null gender and "Male" all give FEMENINO. */
  lemma ClassifyBinary(gender: Option<string>)
    ensures Classify(gender) == MaleView || Classify(gender) == FemaleView
    ensures Classify(gender).badge == "MASCULINO" <==> gender == Some("male")
    ensures Classify(gender).badge == "FEMENINO" <==> gender != Some("male")
    ensures Classify(None) == FemaleView && Classify(Some("Male")) == FemaleView
  {
    assert "Male" != "male" by { assert "Male"[0] != "male"[0]; }
  }

  /** `{genderData && ...}`: the card is rendered for any stored result,
      with no check on `gender`. */
  predicate ResultCardVisible(genderData: Option<GenderData>) {
    genderData.Some?
  }

  /** The request URL embeds the raw name: neither trimmed nor encoded. */
  function RequestUrl(name: string): (url: string)
    ensures |url| == |ApiBase| + |name| && url[..|ApiBase|] == ApiBase && url[|ApiBase|..] == name
  {
    ApiBase + name
  }

  /** Distinct names give distinct URLs, so a name with surrounding blanks
      is sent with them, and every character of the name, a space or an
      `&` included, appears in the query unescaped at its own position. */
  lemma RequestUrlRaw(name: string, other: string)
    ensures RequestUrl(name) == RequestUrl(other) <==> name == other
    ensures Trim(name) != name ==> RequestUrl(name) != RequestUrl(Trim(name))
    ensures forall i :: 0 <= i < |name| ==> RequestUrl(name)[|ApiBase| + i] == name[i]
  {
    if RequestUrl(name) == RequestUrl(other) {
      assert name == RequestUrl(name)[|ApiBase|..] == RequestUrl(other)[|ApiBase|..] == other;
    }
    if Trim(name) != name {
      assert RequestUrl(Trim(name))[|ApiBase|..] == Trim(name);
    }
  }

  class GenderPage {
    var name: string
    var genderData: Option<GenderData>
    var loading: bool
    var error: string
    ghost var inFlight: multiset<string>

    /** While a request is loading, no result card is shown and some request is
        still pending to end the loading. */
    ghost predicate Valid()
      reads this
    {
      loading ==> genderData == None && |inFlight| > 0
    }

    constructor ()
      ensures Valid()
      ensures name == "" && genderData == None && !loading && error == ""
      ensures inFlight == multiset{}
    {
      name, genderData, loading, error := "", None, false, "";
      inFlight := multiset{};
    }

    method SetName(value: string)
      requires Valid()
      modifies this
      ensures Valid()
      ensures name == value
      ensures genderData == old(genderData) && loading == old(loading) && error == old(error)
      ensures inFlight == old(inFlight)
    {
      name := value;
    }

    /** `fetchGender` up to its `await`. */
    method Begin() returns (request: Option<string>)
      requires Valid()
      modifies this
      ensures Valid()
      ensures name == old(name)
      ensures IsBlank(name) ==>
        && request == None && error == EmptyNameError
        && genderData == old(genderData) && loading == old(loading) && inFlight == old(inFlight)
      ensures !IsBlank(name) ==>
        && request == Some(RequestUrl(name))
        && loading && error == "" && genderData == None
        && inFlight == old(inFlight) + multiset{RequestUrl(name)}
    {
      if IsBlank(name) {
        error := EmptyNameError;
        request := None;
        return;
      }
      loading := true;
      error := "";
      genderData := None;
      var url := RequestUrl(name);
      inFlight := inFlight + multiset{url};
      request := Some(url);
    }

    method CompleteOk(url: string, payload: GenderData)
      requires Valid() && url in inFlight
      modifies this
      ensures Valid()
      ensures genderData == Some(payload) && !loading && error == old(error)
      ensures ResultCardVisible(genderData)
      ensures name == old(name)
      ensures inFlight == old(inFlight) - multiset{url}
    {
      genderData := Some(payload);
      loading := false;
      inFlight := inFlight - multiset{url};
    }

    method CompleteErr(url: string)
      requires Valid() && url in inFlight
      modifies this
      ensures Valid()
      ensures error == FetchError && !loading && genderData == old(genderData)
      ensures name == old(name)
      ensures inFlight == old(inFlight) - multiset{url}
    {
      error := FetchError;
      loading := false;
      inFlight := inFlight - multiset{url};
    }
  }

  /** A name with no prediction: the card is still rendered, and it says
      FEMENINO. The padded name goes out as typed. */
  method NullGenderRendersFemale(name: string)
    returns (card: bool, view: GenderView, url: string)
    requires !IsBlank(name)
    ensures card && view == FemaleView && url == ApiBase + name
  {
    var page := new GenderPage();
    page.SetName(name);
    var r := page.Begin();
    page.CompleteOk(r.value, GenderData(name, None, 0.0, 0));
    card := ResultCardVisible(page.genderData);
    view := Classify(page.genderData.value.gender);
    url := r.value;
  }
}
