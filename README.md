# Ionic tool pages — a Dafny model

The app has six tool pages: Pokédex, weather in Santo Domingo, age estimator,
universities by country, gender predictor and TechCrunch news. Each page is a
React component. Its state lives in `useState` hooks, and each page has one
asynchronous handler that calls a public HTTP API and writes the outcome back
into that state.

This project models those six pages.

- **One class per page.** The fields of each class are the page's hooks:
  `PokemonPage`, `WeatherPage`, `AgePage`, `UniversitiesPage`, `GenderPage`
  and `NewsPage`.
- **Each handler is split at its `await`.**
  - `Begin` is the code before the `await`: the blank-input check, clearing
    the state, and building the request URL. It returns that URL.
  - `CompleteOk(url, payload)` and `CompleteErr(url)` are the `try` body
    after the `await`, the `catch`, and the `finally`.
  - The network outcome is an argument. A ghost multiset `inFlight` records
    which requests were issued and not yet settled.
  - Nothing ties a response to the latest request: any pending request may
    settle at any time, and whichever settles last decides what is shown.
    The Enter key calls the handler even while the button is disabled.
- **Scenario methods** (`StaleResponseWins`, `OverlapShowsListAndError`,
  `RefreshFailureKeepsWeather`, …) build a page, run one interleaving of
  these steps, and prove what the user then sees.
- **Pure helpers** are functions with lemmas. They include:
  - the type-colour table, the padded id, ability labels and the one-decimal
    height and weight;
  - the weather icon keywords and the response mapping;
  - the age categories, the male/else gender display and the results badge;
  - the news excerpt and card numbering.
- **JavaScript built-ins** used by the pages are modelled in `Text` and `Uri`:
  - `trim` (ECMAScript white space and line terminators) and `toLowerCase`;
  - `includes`, `replace` with a one-character pattern, `padStart` and
    `Number.prototype.toString`;
  - `parseInt`, with `NaN` as `None`;
  - `encodeURIComponent`, as UTF-8 percent-escapes with upper-case hex. Its
    partner is a reference decoder.

Modules: `Wrappers` (Option), `Text`, `Uri`, `Pokemon`, `Weather`, `Age`,
`Universities`, `Gender`, `News`.

## Model

| member | source | states |
|---|---|---|
| Text.TrimStartSpec | src/pages/Pokemon.tsx:87 | `trimStart` drops exactly a prefix of white space: the result is a suffix of the input, and it is empty or starts with a visible character |
| Text.TrimEndSpec | src/pages/Pokemon.tsx:87 | `trimEnd` drops exactly a suffix of white space: the result is a prefix of the input, and it is empty or ends with a visible character |
| Text.IsBlankIff | src/pages/Pokemon.tsx:87-90 | `!s.trim()` holds exactly when every character of `s` is white space, both directions |
| Text.NotBlankWhenFirstVisible | src/pages/Age.tsx:57 | an input whose first character is visible passes the blank check |
| Text.LowerChar | src/pages/Pokemon.tsx:98 | a lower-cased character is a lower-case ASCII letter exactly when the input was an ASCII letter of either case; a capital becomes the same letter in lower case; every other ASCII character is unchanged |
| Text.ToLowerIdempotent | src/pages/Weather.tsx:77 | lower-casing twice equals lower-casing once |
| Text.ToLowerOfSlice | src/pages/Weather.tsx:77 | lower-casing commutes with taking a slice |
| Text.ContainsAt | src/pages/Weather.tsx:78 | an occurrence of the pattern at any index makes `includes` true |
| Text.ContainsIndex | src/pages/Weather.tsx:78 | when `includes` is true, an index where the pattern occurs exists and is returned |
| Text.ContainsIff | src/pages/Weather.tsx:78-80 | `includes` holds exactly when the pattern occurs at some index |
| Text.ContainsLower | src/pages/Weather.tsx:77-80 | an occurrence survives lower-casing both the text and the pattern |
| Text.IndexOf | src/pages/Pokemon.tsx:250 | the first index of a character: -1 exactly when it is absent; otherwise it is there and nowhere before |
| Text.ReplaceFirstSpec | src/pages/Pokemon.tsx:250 | `replace` with a one-character pattern changes only the first occurrence, and leaves the text alone when there is none |
| Text.Repeat | src/pages/Pokemon.tsx:194 | `n` copies of one character |
| Text.PadStart | src/pages/Pokemon.tsx:194 | `padStart` reaches the target width, or keeps a longer string whole, by prefixing only fill characters |
| Text.Decimal | src/pages/Pokemon.tsx:194 | `toString` of a natural number is a non-empty digit string with no leading zero unless it is 0 |
| Text.DecimalRoundTrip | src/pages/Pokemon.tsx:194 | reading back the decimal numeral of `n` gives `n` |
| Text.LeadingZerosValue | src/pages/Pokemon.tsx:194 | leading zeros do not change the value of a digit string |
| Text.StripZerosPrefix | src/pages/Pokemon.tsx:194 | stripping the zeros put in front of a numeral without a leading zero gives the numeral back |
| Text.DigitPrefixLength | src/pages/Weather.tsx:58 | the length of the longest run of leading decimal digits |
| Text.HexDigitValue | src/pages/Weather.tsx:58 | the value of a hexadecimal digit is its position in `0123456789abcdef` once lower-cased, so `a`–`f` and `A`–`F` are 10–15 |
| Text.HexPrefixLength | src/pages/Weather.tsx:58 | the length of the longest run of leading hexadecimal digits |
| Text.ParseUnsignedDigits | src/pages/Weather.tsx:58 | the unsigned numeral reader reads a non-empty all-digit string in full, as its decimal value |
| Text.TrimStartVisible | src/pages/Weather.tsx:58 | trimming the start leaves a string that starts with a visible character unchanged |
| Text.ParseIntDigits | src/pages/Weather.tsx:58-62 | `parseInt` of a non-empty digit string is its decimal value, leading zeros included |
| Text.ParseIntNegative | src/pages/Weather.tsx:58-62 | `parseInt` of a minus sign followed by digits is the negated value |
| Text.ParseIntRoundTrip | src/pages/Weather.tsx:58-62 | `parseInt` reads back every integer rendered in decimal, negative ones included |
| Uri.Utf8 | src/pages/Universities.tsx:53 | one character becomes one to four byte values |
| Uri.Utf8Encode | src/pages/Universities.tsx:53 | UTF-8 encoding yields byte values only |
| Uri.HexUpper | src/pages/Universities.tsx:53 | the escape digit for a nibble is an unreserved hex digit whose value is the nibble |
| Uri.PercentBytes | src/pages/Universities.tsx:53 | the escapes of a byte string are three characters per byte |
| Uri.PercentBytesShape | src/pages/Universities.tsx:53 | the `i`-th byte is written at position `3i` as `%` followed by two hex digits whose value is that byte |
| Uri.EncodeUriComponent | src/pages/Universities.tsx:53 | every output character is unreserved or `%` |
| Uri.PercentBytesSafe | src/pages/Universities.tsx:53 | escapes contain only `%` and unreserved characters |
| Uri.NoQueryDelimiters | src/pages/Universities.tsx:53 | the encoded country contains none of `& = # ? + / space`, so it stays one query parameter |
| Uri.EncodeUnreservedIdentity | src/pages/Universities.tsx:53 | a string made only of unreserved characters is sent unchanged |
| Uri.UnescapeOneByte | src/pages/Universities.tsx:53 | one `%XX` escape unescapes to its byte in front of the rest |
| Uri.UnescapePercentBytes | src/pages/Universities.tsx:53 | the escapes of a byte string unescape to that byte string |
| Uri.UnescapeEncode | src/pages/Universities.tsx:53 | percent-unescaping an encoded string yields its UTF-8 bytes |
| Uri.Utf8CharShape | src/pages/Universities.tsx:53 | each character's UTF-8 form has a lead byte announcing its length, continuation bytes after it, and decodes to the character |
| Uri.Utf8RoundTrip | src/pages/Universities.tsx:53 | UTF-8 decoding inverts UTF-8 encoding |
| Uri.EncodeRoundTrip | src/pages/Universities.tsx:53 | decoding the encoded component gives the original text back |
| Pokemon.TypeColorSpec | src/pages/Pokemon.tsx:61-84 | the table has exactly the eighteen types; a listed type gets its table colour; the fallback `#68A090` appears exactly for unlisted names |
| Pokemon.ChipColors | src/pages/Pokemon.tsx:208-216 | one chip per type, in order, each coloured by `getTypeColor` |
| Pokemon.HeaderVersusFirstChip | src/pages/Pokemon.tsx:191 | the header reads the table with no fallback: it has no colour exactly when the first chip falls back, and otherwise it matches the first chip |
| Pokemon.PaddedIdSpec | src/pages/Pokemon.tsx:194 | the padded id is max(3, digit count) long and consists of zeros then the numeral; stripping the zeros of a positive id gives the numeral back; `parseInt` reads the id back |
| Pokemon.AbilityLabelSpec | src/pages/Pokemon.tsx:250 | only the first hyphen becomes a space; the length and every other character are kept |
| Pokemon.TenthsSpec | src/pages/Pokemon.tsx:232-240 | the one-decimal text is digits, a point and one digit, whose value is the decimetres or hectograms |
| Pokemon.PokemonPage.constructor | src/pages/Pokemon.tsx:55-58 | empty field, no Pokémon, not loading, no error |
| Pokemon.PokemonPage.SetPokemonName | src/pages/Pokemon.tsx:155 | only the field changes |
| Pokemon.PokemonPage.Begin | src/pages/Pokemon.tsx:86-99 | blank input sets the empty-name error and changes nothing else; otherwise the page clears, starts loading and requests the API base plus the lower-cased untrimmed input |
| Pokemon.PokemonPage.CompleteOk | src/pages/Pokemon.tsx:100-105 | the payload is shown and loading ends, whatever else is still pending; the error is untouched |
| Pokemon.PokemonPage.CompleteErr | src/pages/Pokemon.tsx:101-105 | the not-found message is set, loading ends, and the shown Pokémon is untouched |
| Pokemon.StaleResponseWins | src/pages/Pokemon.tsx:86-119 | two searches, the second started with Enter while the button was disabled, resolving in reverse order: the card shows the first Pokémon while the field names the second, and loading ended while a request was still out |
| Weather.WeatherIcon | src/pages/Weather.tsx:76-82 | the icon is always rainy, cloudy or sunny |
| Weather.WeatherIconPriority | src/pages/Weather.tsx:76-82 | each icon holds exactly when its rule fires: rain or shower wins; then cloud; then clear or sunny; otherwise cloudy |
| Weather.WeatherIconCaseInsensitive | src/pages/Weather.tsx:77 | the icon does not depend on letter case |
| Weather.RainInAnyCase | src/pages/Weather.tsx:77-78 | "rain" or "shower" in any letter case anywhere in the description gives rainy |
| Weather.MapWeather | src/pages/Weather.tsx:55-64 | a snapshot exists exactly when `current_condition[0].weatherDesc[0]` exists (otherwise the `catch` runs); its numbers are the `parseInt` of the fields and its icon comes from its description |
| Weather.MapWeatherReadsNumbers | src/pages/Weather.tsx:57-64 | numbers rendered as decimal integers are read back exactly |
| Weather.WeatherPage.constructor | src/pages/Weather.tsx:40-42 | the first render is loading, with no weather and no error |
| Weather.WeatherPage.Begin | src/pages/Weather.tsx:45-53 | loading starts and the error clears; the old snapshot is kept but hidden; the fixed URL is requested |
| Weather.WeatherPage.CompleteOk | src/pages/Weather.tsx:55-69 | a readable payload replaces the snapshot; an unreadable one sets the error and keeps the old snapshot; loading ends |
| Weather.WeatherPage.CompleteErr | src/pages/Weather.tsx:65-69 | the error is set, the old snapshot kept, loading ends |
| Weather.RefreshFailureKeepsWeather | src/pages/Weather.tsx:114-132 | a refresh that fails after a successful load shows the error card and the previous weather together |
| Age.AgeCategorySpec | src/pages/Age.tsx:34-54 | Joven for under 18, Adulto for 18 to 59, Anciano for 60 and over, each with its label and colour |
| Age.AgeCategoryMonotone | src/pages/Age.tsx:34-54 | an older age never gets a younger category |
| Age.AgeGroupDistinct | src/pages/Age.tsx:34-54 | labels and colours tell the three categories apart |
| Age.AgePage.constructor | src/pages/Age.tsx:29-32 | empty name, no data, not loading, no error |
| Age.AgePage.SetName | src/pages/Age.tsx:107 | only the name changes |
| Age.AgePage.Begin | src/pages/Age.tsx:56-67 | blank input sets the error only; otherwise the page clears, starts loading and requests the base plus the raw name |
| Age.AgePage.CompleteOk | src/pages/Age.tsx:66-73 | the payload is stored and loading ends; the card shows exactly when the age is non-null and non-zero |
| Age.AgePage.CompleteErr | src/pages/Age.tsx:69-73 | the error is set, loading ends, the stored data is untouched |
| Age.NullAgeShowsNothing | src/pages/Age.tsx:138 | a null age from the service stores the result with no error and no card |
| Gender.ClassifyBinary | src/pages/Gender.tsx:118-137 | the view is male exactly for the string "male"; null, "female" and "Male" all give the female view |
| Gender.RequestUrlRaw | src/pages/Gender.tsx:46 | the name is neither trimmed nor encoded: distinct names give distinct URLs (so a name with surrounding blanks is not sent as its trimmed form), and every character of the name appears unescaped at its own position |
| Gender.GenderPage.constructor | src/pages/Gender.tsx:30-33 | empty name, no data, not loading, no error |
| Gender.GenderPage.SetName | src/pages/Gender.tsx:87 | only the name changes |
| Gender.GenderPage.Begin | src/pages/Gender.tsx:35-46 | blank input sets the error only; otherwise the page clears, starts loading and requests the raw-name URL |
| Gender.GenderPage.CompleteOk | src/pages/Gender.tsx:45-52 | the payload is stored, the card is shown and loading ends |
| Gender.GenderPage.CompleteErr | src/pages/Gender.tsx:48-52 | the error is set, loading ends, the stored data is untouched |
| Gender.NullGenderRendersFemale | src/pages/Gender.tsx:118-137 | a null gender still shows the card, as FEMENINO, and the name goes out untrimmed |
| Universities.RequestUrl | src/pages/Universities.tsx:52-54 | the URL is the base followed by a parameter that decodes back to exactly the typed country |
| Universities.UniversitiesPage.constructor | src/pages/Universities.tsx:35-38 | empty country, empty list, not loading, no error |
| Universities.UniversitiesPage.SetCountry | src/pages/Universities.tsx:104 | only the country changes |
| Universities.UniversitiesPage.Begin | src/pages/Universities.tsx:40-54 | blank input sets the error only; otherwise the list empties, loading starts and the encoded URL is requested |
| Universities.UniversitiesPage.CompleteOk | src/pages/Universities.tsx:56-65 | a non-empty list replaces the old one and the badge then shows its length; an empty or `null` body sets the not-found message, which differs from the transport-error message; loading ends |
| Universities.UniversitiesPage.CompleteErr | src/pages/Universities.tsx:61-65 | the transport-error message is set, loading ends, the list is untouched |
| Universities.SingleLookup | src/pages/Universities.tsx:40-65 | after one lookup on its own, exactly one of "results listed" and "error shown" holds, each outcome maps to its message, and the results badge is shown exactly when no error is, with the number of universities found |
| Universities.OverlapShowsListAndError | src/pages/Universities.tsx:40-72 | two overlapping lookups can leave one country's list on screen beside the other's not-found message |
| News.Excerpt | src/pages/News.tsx:176 | the excerpt is a prefix of the stripped text, at most 150 characters, followed by "..." |
| News.ShortExcerptWhole | src/pages/News.tsx:176 | a short text is kept whole before the "..." |
| News.CardsSpec | src/pages/News.tsx:149-176 | a card has a badge exactly when it has an image; badges number the cards from 1 in list order; image URLs are non-empty; excerpts are at most 153 characters |
| News.NewsPage.constructor | src/pages/News.tsx:41-43 | the first render is loading, with an empty list and no error |
| News.NewsPage.Begin | src/pages/News.tsx:48-53 | loading starts and the error clears; the old list is kept but hidden; the feed URL is requested |
| News.NewsPage.CompleteOk | src/pages/News.tsx:54-59 | the list is replaced wholesale, loading ends, and it shows exactly when non-empty |
| News.NewsPage.CompleteErr | src/pages/News.tsx:55-59 | the error is set, loading ends, the old list is kept |
| News.RefreshFailureKeepsList | src/pages/News.tsx:126-141 | a failed refresh after a successful load shows the error card above the previous list |

## Left out

- HTTP (axios): the response or the failure is an argument of `CompleteOk`/`CompleteErr`. Timeouts, retries and transport details are not modelled.
- `inFlight` is a ghost device that makes "this request was issued" explicit. The source has no such bookkeeping and no request-id guard.
- The `useEffect` mount calls and the pull-to-refresh handler are not modelled. They only call the same handler; the constructors of `WeatherPage` and `NewsPage` give the state before the mount call.
- `stripHtml` depends on the browser DOM, so the card functions take it as a parameter `strip`.
- `formatDate` and `toLocaleTimeString` depend on the locale, so they are not modelled.
- `playSound`, `openWebsite`, `openLink` and the mailto/`window.open` links are not modelled: they play audio or open windows and change no state. The sound section that offers `playSound` is not modelled either.
- JSX layout, CSS classes, animation delays and icons are not modelled. The only exceptions are the values derived from state that are modelled above.
- `App.tsx`, `Home.tsx`, `About.tsx` and `capacitor.config.ts` are not modelled: they are routing, static content and build configuration.
- The emoji of `getAgeCategory` is not modelled. Its characters are mis-encoded in the source file, and only the label and colour are modelled.
- Text.LowerChar: only ASCII and Latin-1 capitals are lower-cased. Full Unicode case mapping, including cases that change length, is not modelled.
- Pokemon.TypeColor: lookups of names that are properties of every JavaScript object, such as "constructor", are treated as unlisted.
- Characters are Unicode scalar values, whereas JavaScript strings are UTF-16 code units. So `substring(0, 150)` and `padStart` count scalars. Lone surrogates, on which `encodeURIComponent` throws, cannot occur.
- Text.ParseInt: the result is an unbounded integer. The loss of precision above 2^53 is not modelled.
- Weather.MapWeather: a scalar field missing from `current_condition` is not modelled (the source would give `parseInt(undefined)`, that is `NaN`). Neither is a `weatherDesc` entry whose `value` is not a string.
- Pokemon.TenthsSpec: `toFixed(1)` on a floating-point quotient is modelled as integer tenths. That is exact for the integer heights and weights the API returns.
- News.NewsPage.CompleteOk: a response body that is not an array is not modelled. The source stores it; an object body then hides the list, because its `length` is undefined, and a non-empty string body makes the render fail at `news.map`.
- Universities.UniversitiesPage.CompleteOk: a response body that is not an array is not modelled. A non-empty string body, which axios returns for a non-JSON reply, passes the `length > 0` test; the source stores it and the render then fails at `universities.map`. The model takes only a list or `null`.
- Pokemon.HeaderColor requires at least one type, as the source indexes `types[0]` unguarded.
