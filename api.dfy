/**
 * The public surfaces of `YumemiWeather`. The values Swift draws without a seed are
 * parameters: `defaultSeed` for `Int.random(in: Int.min...Int.max)`, `roll` for
 * `Int.random(in: 0...4)` and `now` for `Date()`.
 */
module Api {
  import opened Wrappers
  import opened DateLayout
  import opened Json
  import opened Weather
  import opened Codec
  import opened SeededRandom
  import opened ResponseFactory

  /** A value of `Int.random(in: 0...4)`; 4 simulates a failure of the remote service. */
  type Roll = x: int | 0 <= x <= 4

  /** `fetchWeatherCondition()`: never fails. */
  function FetchWeatherCondition(family: DrawFamily, defaultSeed: Int64, now: Timestamp): (s: string)
    ensures s in ConditionNames
  {
    MakeRandomResponse(family, NoOverrides, None, defaultSeed, now).weatherCondition
  }

  /** `fetchWeatherCondition(at:)`: the roll comes first; the area is not read. */
  function FetchWeatherConditionAt(area: string, roll: Roll, family: DrawFamily,
                                   defaultSeed: Int64, now: Timestamp): (r: Result<string, WeatherError>)
    ensures r.Failure? <==> roll == 4
    ensures r.Failure? ==> r.error == UnknownError
    ensures r.Success? ==> r.value in ConditionNames
  {
    if roll == 4 then Failure(UnknownError)
    else Success(FetchWeatherCondition(family, defaultSeed, now))
  }

  /** The area argument of `fetchWeatherCondition(at:)` has no effect on the outcome. */
  lemma AreaIsIgnored(a1: string, a2: string, roll: Roll, family: DrawFamily,
                      defaultSeed: Int64, now: Timestamp)
    ensures FetchWeatherConditionAt(a1, roll, family, defaultSeed, now)
         == FetchWeatherConditionAt(a2, roll, family, defaultSeed, now)
  {
  }

  /**
   * `fetchWeather`: decode the request, generate a response for its date, encode it, and
   * only then roll for a simulated failure.
   */
  function FetchWeather(text: TextLayer, input: string, family: DrawFamily,
                        defaultSeed: Int64, roll: Roll): (r: Result<string, WeatherError>)
    ensures r == Failure(InvalidParameterError) <==> DecodeText(text, input).None?
    ensures r == Failure(UnknownError) <==> DecodeText(text, input).Some? && roll == 4
    ensures r.Success? <==> DecodeText(text, input).Some? && roll != 4
  {
    match DecodeText(text, input)
    case None => Failure(InvalidParameterError)
    case Some(request) =>
      // The date is given, so `Date()` is never read: the request's date stands in for it.
      var response := MakeRandomResponse(family, DateOnly(request.date), None, defaultSeed, request.date);
      var encoded := text.serialize(EncodeResponse(response));
      if roll == 4 then Failure(UnknownError) else Success(encoded)
  }

  /**
   * A request text that the text layer reads as the documented request shape never fails
   * with `invalidParameterError`: it succeeds unless the roll is 4.
   */
  lemma WellFormedRequestIsAccepted(text: TextLayer, input: string, q: Request, family: DrawFamily,
                                    defaultSeed: Int64, roll: Roll)
    requires text.parse(input) == Some(RequestJson(q))
    ensures DecodeText(text, input) == Some(q)
    ensures roll != 4 ==> FetchWeather(text, input, family, defaultSeed, roll).Success?
    ensures roll == 4 ==> FetchWeather(text, input, family, defaultSeed, roll) == Failure(UnknownError)
  {
    DecodeRequestJson(q);
  }

  /** A rejected request fails the same way whatever the generator and the roll. */
  lemma InvalidRequestDrawsNothing(text: TextLayer, input: string, f1: DrawFamily, s1: Int64, r1: Roll,
                                   f2: DrawFamily, s2: Int64, r2: Roll)
    requires DecodeText(text, input).None?
    ensures FetchWeather(text, input, f1, s1, r1) == FetchWeather(text, input, f2, s2, r2)
  {
  }

  /** The response a successful call's text reads back as, through the same text layer. */
  function ReadResponse(text: TextLayer, s: string): Option<Response> {
    var j :- text.parse(s);
    ResponseFromWire(j)
  }

  /**
   * A successful `fetchWeather` answers with a response for the request's date: read back,
   * it is the response generated from the default seed, its condition is one of the three,
   * its maximum lies in 10...40 and its minimum in -40..<maximum.
   */
  lemma SuccessCarriesResponse(text: TextLayer, input: string, family: DrawFamily,
                               defaultSeed: Int64, roll: Roll, s: string)
    requires ReadsBackResponses(text)
    requires FetchWeather(text, input, family, defaultSeed, roll) == Success(s)
    ensures DecodeText(text, input).Some?
    ensures var q := DecodeText(text, input).value;
            var r := ReadResponse(text, s);
            && r == Some(Seeded(family, DateOnly(q.date), defaultSeed, q.date))
            && r.value.date == q.date
            && r.value.weatherCondition in ConditionNames
            && 10 <= r.value.maxTemperature <= 40
            && -40 <= r.value.minTemperature < r.value.maxTemperature
  {
    var q := DecodeText(text, input).value;
    var response := Seeded(family, DateOnly(q.date), defaultSeed, q.date);
    assert s == text.serialize(EncodeResponse(response));
    assert text.parse(s) == Some(EncodeResponse(response));
    ResponseRoundTrip(response);
  }

  /** `syncFetchWeather`: after the delay, exactly what `fetchWeather` returns or throws. */
  function SyncFetchWeather(text: TextLayer, input: string, family: DrawFamily,
                            defaultSeed: Int64, roll: Roll): (r: Result<string, WeatherError>)
    ensures r == FetchWeather(text, input, family, defaultSeed, roll)
  {
    FetchWeather(text, input, family, defaultSeed, roll)
  }

  /** A completion handler: it records every result it is called with, in order. */
  class Completion {
    var deliveries: seq<Result<string, WeatherError>>

    constructor ()
      ensures deliveries == []
    {
      deliveries := [];
    }

    method Call(result: Result<string, WeatherError>)
      modifies this
      ensures deliveries == old(deliveries) + [result]
    {
      deliveries := deliveries + [result];
    }
  }

  /**
   * `callbackFetchWeather`: after the delay, calls `completion` once, with `.success(s)`
   * when `fetchWeather` returned `s` and `.failure(e)` when it threw `e`.
   */
  method CallbackFetchWeather(text: TextLayer, input: string, family: DrawFamily,
                              defaultSeed: Int64, roll: Roll, completion: Completion)
    modifies completion
    ensures completion.deliveries
         == old(completion.deliveries) + [FetchWeather(text, input, family, defaultSeed, roll)]
  {
    var outcome := FetchWeather(text, input, family, defaultSeed, roll);
    match outcome
    case Success(response) =>
      completion.Call(Success(response));
    case Failure(error) =>
      completion.Call(Failure(error));
  }

  /** A checked continuation: resuming it a second time is a trap, so it may be resumed once. */
  class Continuation {
    var resumed: Option<Result<string, WeatherError>>

    constructor ()
      ensures resumed == None
    {
      resumed := None;
    }

    method Resume(result: Result<string, WeatherError>)
      requires resumed.None?
      modifies this
      ensures resumed == Some(result)
    {
      resumed := Some(result);
    }
  }

  /**
   * `asyncFetchWeather`: suspends on a continuation that the completion of
   * `callbackFetchWeather` resumes with its one result, and returns or throws that result.
   */
  method AsyncFetchWeather(text: TextLayer, input: string, family: DrawFamily,
                           defaultSeed: Int64, roll: Roll) returns (r: Result<string, WeatherError>)
    ensures r == FetchWeather(text, input, family, defaultSeed, roll)
  {
    var continuation := new Continuation();
    var completion := new Completion();
    CallbackFetchWeather(text, input, family, defaultSeed, roll, completion);
    assert |completion.deliveries| == 1;
    // The completion closure: `continuation.resume(with: result)` for its one delivery.
    continuation.Resume(completion.deliveries[0]);
    r := continuation.resumed.value;
  }
}
