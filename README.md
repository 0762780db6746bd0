# YumemiWeather in Dafny

A model of `YumemiWeather`, a mock weather-forecast service that stands in for a remote
API. It makes reproducible weather responses from a seed and per-field overrides, reads and
writes them as JSON, injects a simulated 1-in-5 remote failure, and offers the same call
through several surfaces: a quick call, a throwing call, a JSON call, a blocking call, a
callback call and an `async` call.

Modules, one per component:

- `Wrappers`: `Option` (Swift's `Optional`) and `Result` (Swift's `Result`, and the outcome of a `throws` function).
- `Digits`: fixed-width decimal fields (`yyyy`, `MM`, ...), written and read back.
- `DateLayout`: the shared date layout `yyyy-MM-dd'T'HH:mm:ssZZZZZ` at component level. The pattern letters are those of Unicode Technical Standard #35. `ZZZZZ` writes `Z` for a zero offset and `+HH:MM` otherwise. The shape is the `date-time` of section 5.6 of RFC 3339.
- `Weather`: the value types `WeatherCondition`, `Request`, `Response` and `YumemiWeatherError`.
- `Json`: JSON values. The text layer of Foundation (parsing and serializing text) is a parameter, `TextLayer`.
- `KeyCoding`: the encoder's `convertToSnakeCase` key strategy.
- `Codec`: the request decoder, the response encoder, and `ResponseFromWire`. `ResponseFromWire` reads the documented response shape back by its snake-case keys; the source never calls it, and it is there to state the encoder's round trip. It is not the source's `decoder`, which sets no `convertFromSnakeCase` and so would look for `weatherCondition`, `maxTemperature` and so on.
- `SeededRandom`: the seeded generator. It is a class whose position in its seed's stream advances with each draw. The stream itself is abstract: a `DrawFamily` gives the k-th raw value for a seed.
- `ResponseFactory`: `makeRandomResponse`. `Seeded` is the specification, with explicit draw positions. `MakeSeededResponse` is the imperative version with one generator advanced in place, and it is proved equal to `Seeded`.
- `Api`: the public surfaces. `fetchWeatherCondition`, `fetchWeather` and `syncFetchWeather` are functions over `Result`. `callbackFetchWeather` is a method that calls a `Completion` object. `asyncFetchWeather` resumes a `Continuation` from that completion.

The values that Swift draws without a seed are explicit parameters:

- `defaultSeed` stands for `Int.random(in: Int.min...Int.max)`.
- `roll` stands for `Int.random(in: 0...4)`, of type `Roll` (0 to 4).
- `now` stands for `Date()`.

Behaviour the model follows from the code:

- `min < max` is guaranteed only when the minimum is drawn. An overridden minimum is passed through unchecked, even above the maximum (`OverriddenMinimumUnchecked`).
- A drawn minimum needs a resolved maximum above -40, or the range `-40..<max` is empty and Swift traps. This is the `Drawable` precondition.
- `fetchWeather` encodes the response before it rolls for the failure. The area of `fetchWeatherCondition(at:)` is never read.

## Model

| member | source | states |
|---|---|---|
| `Digits.ReadPad` | Sources/YumemiWeather/YumemiWeather.swift:32 | a number written as a zero-padded field of `width` digits reads back as the same number |
| `Digits.PadRead` | Sources/YumemiWeather/YumemiWeather.swift:32 | a field of digits, read and written back at its own width, gives the same text |
| `DateLayout.ParseOffset` | Sources/YumemiWeather/YumemiWeather.swift:32 | an accepted `ZZZZZ` offset is `Z`, or six characters: a sign, two digits, a colon and two digits; its value lies within ±23:59 |
| `DateLayout.Parse` | Sources/YumemiWeather/YumemiWeather.swift:32 | accepted text has 20 characters ending in `Z`, or 25 characters with the offset colon at index 22 |
| `DateLayout.FormatOffset` | Sources/YumemiWeather/YumemiWeather.swift:32 | `ZZZZZ` writes `Z` exactly for a zero offset; otherwise six characters with the colon at index 3, starting with `-` exactly when the offset is negative |
| `DateLayout.Format` | Sources/YumemiWeather/YumemiWeather.swift:32 | the written text has 20 characters for UTC and 25 otherwise, with the separators `-`, `-`, `T`, `:`, `:` at 4, 7, 10, 13 and 16, and `Z` at index 19 exactly when the offset is zero |
| `DateLayout.OffsetRoundTrip` | Sources/YumemiWeather/YumemiWeather.swift:32 | every offset the layout writes reads back as the same offset |
| `DateLayout.OffsetCanonical` | Sources/YumemiWeather/YumemiWeather.swift:32 | an accepted offset text is written back unchanged exactly when it is not `+00:00` or `-00:00` |
| `DateLayout.ParseFormat` | Sources/YumemiWeather/YumemiWeather.swift:30-47 | the one formatter shared by the encoder and the decoder reads back every timestamp it writes |
| `DateLayout.FormatParse` | Sources/YumemiWeather/YumemiWeather.swift:30-47 | accepted text is exactly the encoder's text for the decoded value, unless it spells a zero offset other than `Z` |
| `DateLayout.ParseDocumentedExample` | Sources/YumemiWeather/YumemiWeather.swift:100-103 | the documented date `2020-04-01T12:00:00+09:00` reads as 1 April 2020, 12:00:00, offset +9 hours |
| `DateLayout.FormatDocumentedExample` | Sources/YumemiWeather/YumemiWeather.swift:107-112 | that timestamp is written back as `2020-04-01T12:00:00+09:00` |
| `Weather.RawValue` | Sources/YumemiWeather/YumemiWeather.swift:15-19 | every condition's raw value is one of `sunny`, `cloudy`, `rainy` |
| `Weather.FromRawValue` | Sources/YumemiWeather/YumemiWeather.swift:15-19 | a string names a condition exactly when it is one of the three raw values, and the condition found has that string as its raw value |
| `Weather.AllCasesComplete` | Sources/YumemiWeather/YumemiWeather.swift:15-19 | `allCases` lists every condition once, and the raw value identifies it |
| `Json.Lookup` | Sources/YumemiWeather/YumemiWeather.swift:118-119 | a key lookup fails exactly when no member has the key |
| `Json.LookupFindsFirst` | Sources/YumemiWeather/YumemiWeather.swift:118-119 | a key lookup that succeeds yields the value of the first member with that key |
| `KeyCoding.SnakeCase` | Sources/YumemiWeather/YumemiWeather.swift:44 | a converted key holds no capital letter |
| `KeyCoding.SnakeCaseLetters` | Sources/YumemiWeather/YumemiWeather.swift:44 | the conversion only inserts underscores and lowers letters: dropping the underscores gives the lower-cased name |
| `KeyCoding.TwoWordKey` | Sources/YumemiWeather/YumemiWeather.swift:44 | a two-word camel-case name becomes the two words in lower case joined by `_` |
| `Codec.WireKeysAreSnakeCase` | Sources/YumemiWeather/YumemiWeather.swift:42-47 | the response keys `weather_condition`, `max_temperature`, `min_temperature` and `date` are the snake-case forms of the property names |
| `Codec.DecodeRequest` | Sources/YumemiWeather/YumemiWeather.swift:3-6 | a decoded request comes from an object whose `area` member is that string and whose `date` member is text that parses to that date; conversely, every object with a string `area` and a `date` string that parses decodes, whatever its other members and their order |
| `Codec.DecodeText` | Sources/YumemiWeather/YumemiWeather.swift:118-121 | a request is decoded exactly when the text parses as JSON and its value decodes as a request, and it is that request |
| `Codec.DecodeRequestJson` | Sources/YumemiWeather/YumemiWeather.swift:36-40 | every request written in the documented shape, with its date in the shared layout, decodes to itself |
| `Codec.DecodeRequestRejects` | Sources/YumemiWeather/YumemiWeather.swift:118-121 | decoding fails for a non-object, for a missing or non-string `area` or `date`, and for a date that does not parse |
| `Codec.DecodeDocumentedRequest` | Sources/YumemiWeather/YumemiWeather.swift:100-103 | the documented request decodes to area `tokyo` and the documented date |
| `Codec.EncodeResponse` | Sources/YumemiWeather/YumemiWeather.swift:42-47 | the encoded object has four members: the condition, the two temperatures, and the date in the shared layout, under the snake-case keys |
| `Codec.ResponseFromWire` | Sources/YumemiWeather/YumemiWeather.swift:8-13 | the inverse of the encoder, not the source's `decoder` (which sets no snake-case strategy): a response is read only from an object whose four snake-case members hold its condition, temperatures and a date string that parses to its date |
| `Codec.ResponseRoundTrip` | Sources/YumemiWeather/YumemiWeather.swift:8-13 | reading an encoded response back by its wire keys reproduces the response exactly |
| `Codec.EncodeDocumentedResponse` | Sources/YumemiWeather/YumemiWeather.swift:107-112 | the documented response (`cloudy`, 25, 7, the documented date) encodes to the documented members |
| `SeededRandom.DrawAt` | Sources/YumemiWeather/YumemiWeather.swift:64-66 | a draw in `lo...hi` lies within that range |
| `SeededRandom.SeededGenerator.constructor` | Sources/YumemiWeather/YumemiWeather.swift:63 | a new generator for a seed stands at the start of that seed's stream |
| `SeededRandom.SeededGenerator.NextInRange` | Sources/YumemiWeather/YumemiWeather.swift:65-66 | a draw returns the stream's value at the current position, within the range, and advances the generator by one |
| `SeededRandom.SeededGenerator.RandomElement` | Sources/YumemiWeather/YumemiWeather.swift:64 | an empty collection gives `nil` with no draw; otherwise one draw picks the element at the drawn index |
| `ResponseFactory.Seeded` | Sources/YumemiWeather/YumemiWeather.swift:62-75 | every override appears unchanged; the condition is one of the three names; a drawn maximum lies in 10...40; a drawn minimum lies in -40..<resolved maximum; the date is the override or now |
| `ResponseFactory.MakeSeededResponse` | Sources/YumemiWeather/YumemiWeather.swift:62-75 | one generator advanced in place by the draws for condition, maximum and minimum, in that order, builds exactly the specified response |
| `ResponseFactory.MakeRandomResponse` | Sources/YumemiWeather/YumemiWeather.swift:58-60 | with a seed given, the response is the seeded one; without one, it is the response for the unseeded fallback draw |
| `ResponseFactory.DependsOnlyOnDrawsTaken` | Sources/YumemiWeather/YumemiWeather.swift:62-67 | a response depends on the generator only through the first "number of non-overridden fields" values of its seed's stream, and on the clock only when no date is given: same seed and overrides give the same response, and with a date given, at any two moments |
| `ResponseFactory.ExplicitSeedIgnoresDefault` | Sources/YumemiWeather/YumemiWeather.swift:58-60 | with a seed given, the unseeded fallback draw has no effect |
| `ResponseFactory.ConditionOverrideSkipsFirstDraw` | Sources/YumemiWeather/YumemiWeather.swift:63-64 | the condition takes the first draw: overriding it removes draw 0 from the stream and changes nothing but the condition |
| `ResponseFactory.MaxOverrideSkipsItsDraw` | Sources/YumemiWeather/YumemiWeather.swift:65-66 | the maximum takes the next draw: overriding it with the value it drew and removing that draw gives the same response, so the minimum comes after it |
| `ResponseFactory.MinOverrideKeepsResponse` | Sources/YumemiWeather/YumemiWeather.swift:66 | the minimum takes the last draw: overriding it with the value it drew gives the same response |
| `ResponseFactory.DrawableIffMinimumRangeNonEmpty` | Sources/YumemiWeather/YumemiWeather.swift:66 | when the minimum is drawn, the precondition `Drawable` holds exactly when `-40..<max` is not empty for the resolved maximum |
| `ResponseFactory.OverriddenMinimumUnchecked` | Sources/YumemiWeather/YumemiWeather.swift:66 | an overridden minimum is not checked against the maximum and can exceed it |
| `Api.FetchWeatherCondition` | Sources/YumemiWeather/YumemiWeather.swift:79-81 | never fails, and returns one of `sunny`, `cloudy`, `rainy` |
| `Api.FetchWeatherConditionAt` | Sources/YumemiWeather/YumemiWeather.swift:88-94 | fails exactly when the roll is 4, and then with `unknownError`; otherwise it returns one of the three names |
| `Api.AreaIsIgnored` | Sources/YumemiWeather/YumemiWeather.swift:88-94 | the area argument has no effect on the outcome |
| `Api.FetchWeather` | Sources/YumemiWeather/YumemiWeather.swift:117-131 | `invalidParameterError` exactly when the input does not decode; `unknownError` exactly when it decodes and the roll is 4; success exactly otherwise |
| `Api.WellFormedRequestIsAccepted` | Sources/YumemiWeather/YumemiWeather.swift:117-131 | text that reads as the documented request decodes to that request, and `fetchWeather` then succeeds unless the roll is 4, when it throws `unknownError` |
| `Api.InvalidRequestDrawsNothing` | Sources/YumemiWeather/YumemiWeather.swift:118-121 | a rejected input fails the same way whatever the generator, the seed and the roll |
| `Api.SuccessCarriesResponse` | Sources/YumemiWeather/YumemiWeather.swift:123-130 | if the text layer reads back what the encoder writes, a successful call's text reads back as the response generated for the request's date: condition one of the three, maximum in 10...40, minimum in -40..<maximum |
| `Api.SyncFetchWeather` | Sources/YumemiWeather/YumemiWeather.swift:154-157 | returns or throws exactly what `fetchWeather` does for the same input and draws |
| `Api.Completion.Call` | Sources/YumemiWeather/YumemiWeather.swift:186 | calling the completion records one more result, after those before |
| `Api.CallbackFetchWeather` | Sources/YumemiWeather/YumemiWeather.swift:186-199 | calls the completion exactly once, with `.success(s)` when `fetchWeather` returned `s` and `.failure(e)` when it threw `e` |
| `Api.Continuation.Resume` | Sources/YumemiWeather/YumemiWeather.swift:224-226 | a checked continuation is resumed at most once, with the result given |
| `Api.AsyncFetchWeather` | Sources/YumemiWeather/YumemiWeather.swift:223-229 | resumes with, and so returns or throws, exactly what `fetchWeather` produced |

## Left out

- `syncFetchWeather`, `callbackFetchWeather` and `asyncFetchWeather`: the two-second delay (`Thread.sleep`, `DispatchQueue.global().asyncAfter`) and the worker thread are not modelled. The callback body runs at once, on the caller's side. Only the result each surface forwards is modelled.
- The `fatalError()` branch of `callbackFetchWeather` and the force-unwrapped UTF-8 conversion in `fetchWeather` are not modelled. `fetchWeather` throws only `YumemiWeatherError`, which the clause before it catches, so the first is never reached; the second cannot fail on encoder output. The `try` of the encoder cannot fail for these values either, so encoding is total.
- Sources/YumemiWeather/YumemiDisaster.swift is not part of this model. It forwards a constant message to a weak delegate and has no logic.
- `SeedRandomNumberGenerator` is not part of this model. A `DrawFamily` stands for its streams, so the golden fixture for seed 42 cannot be computed.
- `SeededRandom.DrawAt`: a raw value is mapped into the range by its remainder. Swift's standard library uses multiply-and-reject sampling, which can take several raw values per draw. The ranges, the order of draws and reproducibility hold either way; uniformity is not modelled.
- The 1-in-5 failure rate and the uniformity of the unseeded draws are statistical claims. The draws are parameters.
- The text layer of `JSONEncoder`/`JSONDecoder` (parsing and serializing JSON text, escaping, whitespace) is library code and is a parameter. `Api.SuccessCarriesResponse` assumes only that this layer reads back the objects the encoder writes for responses (`Codec.ReadsBackResponses`).
- JSON numbers are integers in the model. A member that appears twice is read by its first occurrence. Foundation does not document which occurrence wins.
- The encoder's key order is not fixed in the source (its documentation shows another order). The model writes the members in declaration order.
- `KeyCoding.SnakeCase` models only camel case without acronyms, on ASCII letters. Foundation's split of runs of capitals (`myURLKey` into `my_url_key`) is left out. No property name of `Response` has such a run.
- `Date` is an absolute instant, and the formatter writes it in the device's time zone, calendar and locale. None of these is set by the source. The model keeps the date as components with their own offset, and writes that offset back.
- `DateLayout.Parse`: reads the layout strictly, with exactly the field widths of the pattern and the offsets `Z` or `±HH:MM`. The parsing leniency of `DateFormatter` is not modelled; it may accept fields with fewer digits, which are then rejected here with `invalidParameterError`.
- Dates: the model accepts years 1 to 9999 only, under the proleptic Gregorian calendar, without the Julian calendar before 1582 and without leap seconds.
- The `Int` overflow of temperatures is not modelled, because the source does no arithmetic on them. Overrides and seeds are bounded to 64 bits by type.
