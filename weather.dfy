/** The value types of the weather service: conditions, requests, responses and errors. */
module Weather {
  import opened Wrappers
  import opened DateLayout

  /** Swift's `Int` on a 64-bit platform. */
  predicate InInt64Range(x: int) {
    -0x8000_0000_0000_0000 <= x < 0x8000_0000_0000_0000
  }

  type Int64 = x: int | InInt64Range(x)

  /** The three conditions; `CaseIterable` lists them in declaration order. */
  datatype WeatherCondition = Sunny | Cloudy | Rainy

  const AllCases: seq<WeatherCondition> := [Sunny, Cloudy, Rainy]

  const ConditionNames: set<string> := {"sunny", "cloudy", "rainy"}

  /** The `String` raw value of a case: its name. */
  function RawValue(c: WeatherCondition): (s: string)
    ensures s in ConditionNames
  {
    match c
    case Sunny => "sunny"
    case Cloudy => "cloudy"
    case Rainy => "rainy"
  }

  /** The synthesized `init?(rawValue:)`. */
  function FromRawValue(s: string): (c: Option<WeatherCondition>)
    ensures c.Some? <==> s in ConditionNames
    ensures c.Some? ==> RawValue(c.value) == s
  {
    if s == "sunny" then Some(Sunny)
    else if s == "cloudy" then Some(Cloudy)
    else if s == "rainy" then Some(Rainy)
    else None
  }

  /** Each condition is listed once by `allCases`, and its raw value identifies it. */
  lemma AllCasesComplete(c: WeatherCondition)
    ensures c in AllCases && FromRawValue(RawValue(c)) == Some(c)
    ensures forall i, j :: 0 <= i < j < |AllCases| ==> AllCases[i] != AllCases[j]
  {
  }

  /** What a client asks for: an area, which nothing reads, and a date. */
  datatype Request = Request(area: string, date: Timestamp)

  /** What the service answers; the condition is kept as its raw `String`. */
  datatype Response = Response(weatherCondition: string, maxTemperature: Int64,
                               minTemperature: Int64, date: Timestamp)

  /** `YumemiWeatherError`. */
  datatype WeatherError = InvalidParameterError | UnknownError
}
