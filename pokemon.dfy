/** The Pokédex page: the type-colour table, the derived display values of
    a Pokémon card and the `fetchPokemon` lookup held in the page's state. */
module Pokemon {
  import opened Wrappers
  import opened Text

  datatype Ability = Ability(name: string, isHidden: bool)

  /** The part of a PokéAPI response the page reads. */
  datatype PokemonData = PokemonData(
    name: string,
    id: nat,
    artworkUrl: string,
    baseExperience: int,
    height: nat,
    weight: nat,
    abilities: seq<Ability>,
    types: seq<string>,
    cry: Option<string>)

  const ApiBase := "https://pokeapi.co/api/v2/pokemon/"
  const EmptyNameError := "Por favor ingresa un nombre de Pokémon"
  const NotFoundError := "Pokémon no encontrado. Verifica el nombre e intenta de nuevo."
  const FallbackColor := "#68A090"

  const TypeColors: map<string, string> := map[
    "normal" := "#A8A878", "fire" := "#F08030", "water" := "#6890F0",
    "electric" := "#F8D030", "grass" := "#78C850", "ice" := "#98D8D8",
    "fighting" := "#C03028", "poison" := "#A040A0", "ground" := "#E0C068",
    "flying" := "#A890F0", "psychic" := "#F85888", "bug" := "#A8B820",
    "rock" := "#B8A038", "ghost" := "#705898", "dragon" := "#7038F8",
    "dark" := "#705848", "steel" := "#B8B8D0", "fairy" := "#EE99AC"]

  // ---------------------------------------------------------------------
  // Colours
  // ---------------------------------------------------------------------

  /** `getTypeColor`: the table colour, or the fallback for any other name. */
  function TypeColor(typeName: string): string {
    if typeName in TypeColors then TypeColors[typeName] else FallbackColor
  }

  /** The table has the eighteen types and no entry uses the fallback
      colour, so the fallback appears exactly for the names not listed. */
  lemma TypeColorSpec(typeName: string)
    ensures typeName in TypeColors <==> typeName in {"normal", "fire", "water", "electric",
      "grass", "ice", "fighting", "poison", "ground", "flying", "psychic", "bug", "rock",
      "ghost", "dragon", "dark", "steel", "fairy"}
    ensures typeName in TypeColors ==> TypeColor(typeName) == TypeColors[typeName]
    ensures TypeColor(typeName) == FallbackColor <==> typeName !in TypeColors
  {
    if typeName in TypeColors {
      var c := TypeColors[typeName];
      assert c[1] != '6' || c[2] != '8' || c[3] != 'A';
    }
  }

  /** The header reads the table at the first type with no fallback: an
      unlisted first type yields `undefined` (here `None`). */
  function HeaderColor(types: seq<string>): Option<string>
    requires |types| > 0
  {
    if types[0] in TypeColors then Some(TypeColors[types[0]]) else None
  }

  /** One chip per type, each coloured through `getTypeColor`. */
  function ChipColors(types: seq<string>): (r: seq<string>)
    ensures |r| == |types|
    ensures forall i :: 0 <= i < |types| ==> r[i] == TypeColor(types[i])
  {
    if types == [] then [] else [TypeColor(types[0])] + ChipColors(types[1..])
  }

  /** Header and first chip agree on a listed first type; on an unlisted
      one the chip falls back while the header has no colour at all. */
  lemma HeaderVersusFirstChip(types: seq<string>)
    requires |types| > 0
    ensures HeaderColor(types) == None <==> ChipColors(types)[0] == FallbackColor
    ensures HeaderColor(types) == None || HeaderColor(types) == Some(ChipColors(types)[0])
  {
    TypeColorSpec(types[0]);
  }

  // ---------------------------------------------------------------------
  // Card text
  // ---------------------------------------------------------------------

  /** `pokemon.id.toString().padStart(3, '0')`. */
  function PaddedId(id: nat): string {
    PadStart(Decimal(id), 3, '0')
  }

  /** The padded id has length max(3, digit count): zeros, then the
      numeral. Dropping the zeros of a positive id gives its numeral back,
      and `parseInt` reads the id back. */
  lemma PaddedIdSpec(id: nat)
    ensures var d := Decimal(id); var p := PaddedId(id);
      && |p| == (if |d| < 3 then 3 else |d|)
      && p == Repeat('0', |p| - |d|) + d
      && (id > 0 ==> StripLeadingZeros(p) == d)
      && ParseInt(p) == Some(id)
  {
    var d := Decimal(id);
    var p := PaddedId(id);
    var k: nat := |p| - |d|;
    assert p == Repeat('0', k) + d;
    if id > 0 {
      StripZerosPrefix(k, d);
    }
    LeadingZerosValue(k, d);
    DecimalRoundTrip(id);
    ParseIntDigits(Repeat('0', k) + d);
  }

  /** `ability.name.replace('-', ' ')`. */
  function AbilityLabel(name: string): string {
    ReplaceFirst(name, '-', ' ')
  }

  /** Only the first hyphen becomes a space: the length is kept, everything
      before and after it is copied, a name without hyphens is unchanged. */
  lemma AbilityLabelSpec(name: string)
    ensures var r := AbilityLabel(name); var k := IndexOf(name, '-');
      && |r| == |name|
      && (k < 0 ==> r == name)
      && (k >= 0 ==> r[k] == ' ' && r[..k] == name[..k] && r[k + 1..] == name[k + 1..])
  {
    ReplaceFirstSpec(name, '-', ' ');
  }

  /** `(tenths / 10).toFixed(1)` for a height or weight in decimetres or
      hectograms: the whole part, a point and the tenths digit. */
  function Tenths(tenths: nat): string {
    Decimal(tenths / 10) + "." + [DigitChar(tenths % 10)]
  }

  lemma TenthsSpec(tenths: nat)
    ensures var r := Tenths(tenths); var w := r[..|r| - 2];
      && r[|r| - 2] == '.'
      && AllDigits(w) && AllDigits(r[|r| - 1..])
      && DigitsValue(w) * 10 + DigitsValue(r[|r| - 1..]) == tenths
  {
    var r := Tenths(tenths);
    assert r[..|r| - 2] == Decimal(tenths / 10);
    DecimalRoundTrip(tenths / 10);
    assert DigitsValue(r[|r| - 1..]) == tenths % 10 by {
      assert r[|r| - 1..][..0] == [];
    }
  }

  // ---------------------------------------------------------------------
  // The lookup
  // ---------------------------------------------------------------------

  /** The request URL: the raw input lower-cased, not trimmed. */
  function RequestUrl(input: string): string {
    ApiBase + ToLower(input)
  }

  /** The page's state hooks. `inFlight` holds the URLs of the requests
      issued and not yet settled; nothing ties a response to the latest one. */
  class PokemonPage {
    var pokemonName: string
    var pokemon: Option<PokemonData>
    var loading: bool
    var error: string
    ghost var inFlight: multiset<string>

    /** While a request is loading, no Pokémon card is shown and some request is
        still pending to end the loading. */
    ghost predicate Valid()
      reads this
    {
      loading ==> pokemon == None && |inFlight| > 0
    }

    /** The search button; the Enter key calls the handler regardless. */
    predicate SearchEnabled()
      reads this
    {
      !loading
    }

    constructor ()
      ensures Valid()
      ensures pokemonName == "" && pokemon == None && !loading && error == ""
      ensures inFlight == multiset{}
    {
      pokemonName, pokemon, loading, error := "", None, false, "";
      inFlight := multiset{};
    }

    /** `onIonInput`: the input field changed. */
    method SetPokemonName(value: string)
      requires Valid()
      modifies this
      ensures Valid()
      ensures pokemonName == value
      ensures pokemon == old(pokemon) && loading == old(loading) && error == old(error)
      ensures inFlight == old(inFlight)
    {
      pokemonName := value;
    }

    /** `fetchPokemon` up to its `await`: blank input only sets the error;
        otherwise the state is cleared and a request goes out. */
    method Begin() returns (request: Option<string>)
      requires Valid()
      modifies this
      ensures Valid()
      ensures pokemonName == old(pokemonName)
      ensures IsBlank(pokemonName) ==>
        && request == None && error == EmptyNameError
        && pokemon == old(pokemon) && loading == old(loading) && inFlight == old(inFlight)
      ensures !IsBlank(pokemonName) ==>
        && request == Some(RequestUrl(pokemonName))
        && loading && error == "" && pokemon == None
        && inFlight == old(inFlight) + multiset{RequestUrl(pokemonName)}
    {
      if IsBlank(pokemonName) {
        error := EmptyNameError;
        request := None;
        return;
      }
      loading := true;
      error := "";
      pokemon := None;
      var url := RequestUrl(pokemonName);
      inFlight := inFlight + multiset{url};
      request := Some(url);
    }

    /** The request for `url` resolved: the payload is stored and the
        `finally` clears `loading`, whatever else is still in flight. */
    method CompleteOk(url: string, payload: PokemonData)
      requires Valid() && url in inFlight
      modifies this
      ensures Valid()
      ensures pokemon == Some(payload) && !loading && error == old(error)
      ensures pokemonName == old(pokemonName)
      ensures inFlight == old(inFlight) - multiset{url}
    {
      pokemon := Some(payload);
      loading := false;
      inFlight := inFlight - multiset{url};
    }

    /** The request for `url` failed: the not-found message is set. */
    method CompleteErr(url: string)
      requires Valid() && url in inFlight
      modifies this
      ensures Valid()
      ensures error == NotFoundError && !loading && pokemon == old(pokemon)
      ensures pokemonName == old(pokemonName)
      ensures inFlight == old(inFlight) - multiset{url}
    {
      error := NotFoundError;
      loading := false;
      inFlight := inFlight - multiset{url};
    }
  }

  /** Two searches overlap (the second started with Enter while the first
      was loading and the button was disabled) and resolve in reverse
      order: the card shows the first Pokémon while the field names the
      second, and loading ended while the first request was still out. */
  method StaleResponseWins(first: PokemonData, second: PokemonData)
    returns (shown: Option<PokemonData>, field: string, loadingBetween: bool, buttonEnabled: bool)
    ensures shown == Some(first) && field == "ditto" && !loadingBetween && !buttonEnabled
  {
    var page := new PokemonPage();
    page.SetPokemonName("Pikachu");
    NotBlankWhenFirstVisible("Pikachu");
    var r1 := page.Begin();
    buttonEnabled := page.SearchEnabled();
    page.SetPokemonName("ditto");
    NotBlankWhenFirstVisible("ditto");
    var r2 := page.Begin();
    page.CompleteOk(r2.value, second);
    loadingBetween := page.loading;
    page.CompleteOk(r1.value, first);
    shown, field := page.pokemon, page.pokemonName;
  }
}
