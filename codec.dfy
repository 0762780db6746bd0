/**
 * The JSON side of the service: the decoder reads a request (keys as declared, the date in
 * the shared layout); the encoder writes a response with snake-case keys and the same layout.
 */
module Codec {
  import opened Wrappers
  import opened DateLayout
  import opened Json
  import opened Weather
  import KeyCoding

  /**
   * `Request`'s synthesized `Decodable`: the top level must be an object, `area` a string
   * and `date` a string in the date layout. Other members are ignored.
   */
  function DecodeRequest(j: Json): (q: Option<Request>)
    ensures q.Some? ==> j.JObject? && Lookup(j.members, "area") == Some(JString(q.value.area))
    ensures q.Some? ==> exists t :: Lookup(j.members, "date") == Some(JString(t)) && Parse(t) == Some(q.value.date)
    ensures (&& j.JObject?
             && Lookup(j.members, "area").Some? && Lookup(j.members, "area").value.JString?
             && Lookup(j.members, "date").Some? && Lookup(j.members, "date").value.JString?
             && Parse(Lookup(j.members, "date").value.s).Some?) ==> q.Some?
  {
    if !j.JObject? then None
    else
      var area :- Lookup(j.members, "area");
      var date :- Lookup(j.members, "date");
      if !area.JString? || !date.JString? then None
      else
        var d :- Parse(date.s);
        Some(Request(area.s, d))
  }

  /** The whole decoding step: text that is not JSON, or JSON that is not a request, gives `None`. */
  function DecodeText(text: TextLayer, input: string): (q: Option<Request>)
    ensures q.Some? ==> text.parse(input).Some? && DecodeRequest(text.parse(input).value) == q
    ensures text.parse(input).Some? ==> q == DecodeRequest(text.parse(input).value)
  {
    var j :- text.parse(input);
    DecodeRequest(j)
  }

  /** The request a client writes, in the shape the documentation shows. */
  function RequestJson(q: Request): Json {
    JObject([("area", JString(q.area)), ("date", JString(Format(q.date)))])
  }

  /** Every request written in the documented shape decodes to itself. */
  lemma DecodeRequestJson(q: Request)
    ensures DecodeRequest(RequestJson(q)) == Some(q)
  {
    ParseFormat(q.date);
    assert Lookup(RequestJson(q).members, "date") == Some(JString(Format(q.date)));
  }

  /** The ways a request is rejected. */
  lemma DecodeRequestRejects(j: Json)
    ensures !j.JObject? ==> DecodeRequest(j) == None
    ensures j.JObject? && Lookup(j.members, "area").None? ==> DecodeRequest(j) == None
    ensures j.JObject? && Lookup(j.members, "date").None? ==> DecodeRequest(j) == None
    ensures j.JObject? && Lookup(j.members, "area").Some? && !Lookup(j.members, "area").value.JString?
            ==> DecodeRequest(j) == None
    ensures j.JObject? && Lookup(j.members, "date").Some? && !Lookup(j.members, "date").value.JString?
            ==> DecodeRequest(j) == None
    ensures (j.JObject? && Lookup(j.members, "date").Some? && Lookup(j.members, "date").value.JString?
             && Parse(Lookup(j.members, "date").value.s).None?) ==> DecodeRequest(j) == None
  {
  }

  /** The documented request `{"area": "tokyo", "date": "2020-04-01T12:00:00+09:00"}`. */
  lemma DecodeDocumentedRequest()
    ensures DecodeRequest(JObject([("area", JString("tokyo")), ("date", JString("2020-04-01T12:00:00+09:00"))]))
            == Some(Request("tokyo", DateTime(2020, 4, 1, 12, 0, 0, 9 * 60)))
  {
    ParseDocumentedExample();
  }

  /** The wire keys of the four response properties. */
  const ConditionKey: string := "weather_condition"
  const MaxKey: string := "max_temperature"
  const MinKey: string := "min_temperature"
  const DateKey: string := "date"

  lemma WireKeysDistinct()
    ensures ConditionKey != MaxKey && ConditionKey != MinKey && ConditionKey != DateKey
    ensures MaxKey != MinKey && MaxKey != DateKey && MinKey != DateKey
  {
    assert |ConditionKey| == 17 && |MaxKey| == 15 && |MinKey| == 15 && |DateKey| == 4;
    assert MaxKey[1] == 'a' && MinKey[1] == 'i';
  }

  /** The wire keys are the snake-case forms of the property names of `Response`. */
  lemma WireKeysAreSnakeCase()
    ensures KeyCoding.SnakeCase("weatherCondition") == ConditionKey
    ensures KeyCoding.SnakeCase("maxTemperature") == MaxKey
    ensures KeyCoding.SnakeCase("minTemperature") == MinKey
    ensures KeyCoding.SnakeCase("date") == DateKey
  {
    KeyCoding.WeatherConditionSnakeCase();
    KeyCoding.MaxTemperatureSnakeCase();
    KeyCoding.MinTemperatureSnakeCase();
    KeyCoding.DateSnakeCase();
  }

  /**
   * `Response`'s synthesized `Encodable` under `convertToSnakeCase`: one member per
   * property, in declaration order, the date in the shared layout.
   */
  function EncodeResponse(r: Response): (j: Json)
    ensures j.JObject? && |j.members| == 4
    ensures Lookup(j.members, ConditionKey) == Some(JString(r.weatherCondition))
    ensures Lookup(j.members, MaxKey) == Some(JNumber(r.maxTemperature))
    ensures Lookup(j.members, MinKey) == Some(JNumber(r.minTemperature))
    ensures Lookup(j.members, DateKey) == Some(JString(Format(r.date)))
  {
    WireKeysDistinct();
    var date := [(DateKey, JString(Format(r.date)))];
    var min := [(MinKey, JNumber(r.minTemperature))] + date;
    var max := [(MaxKey, JNumber(r.maxTemperature))] + min;
    var members := [(ConditionKey, JString(r.weatherCondition))] + max;
    assert members[1..] == max && max[1..] == min && min[1..] == date;
    assert Lookup(max, MinKey) == Lookup(min, MinKey) && Lookup(members, MinKey) == Lookup(max, MinKey);
    assert Lookup(min, DateKey) == Lookup(date, DateKey);
    assert Lookup(max, DateKey) == Lookup(min, DateKey) && Lookup(members, DateKey) == Lookup(max, DateKey);
    JObject(members)
  }

  /** Reads the documented response shape back: the inverse of the encoder. */
  function ResponseFromWire(j: Json): (r: Option<Response>)
    ensures r.Some? ==> j.JObject?
    ensures r.Some? ==> Lookup(j.members, ConditionKey) == Some(JString(r.value.weatherCondition))
    ensures r.Some? ==> Lookup(j.members, MaxKey) == Some(JNumber(r.value.maxTemperature))
    ensures r.Some? ==> Lookup(j.members, MinKey) == Some(JNumber(r.value.minTemperature))
    ensures r.Some? ==> exists t :: Lookup(j.members, DateKey) == Some(JString(t)) && Parse(t) == Some(r.value.date)
  {
    if !j.JObject? then None
    else
      var condition :- Lookup(j.members, ConditionKey);
      var max :- Lookup(j.members, MaxKey);
      var min :- Lookup(j.members, MinKey);
      var date :- Lookup(j.members, DateKey);
      if !condition.JString? || !max.JNumber? || !min.JNumber? || !date.JString? then None
      else if !InInt64Range(max.n) || !InInt64Range(min.n) then None
      else
        var d :- Parse(date.s);
        Some(Response(condition.s, max.n as Int64, min.n as Int64, d))
  }

  /**
   * A text layer that reads back what the encoder writes for a response: an object with
   * four distinct keys and plain values. Nothing is assumed about other values.
   */
  ghost predicate ReadsBackResponses(t: TextLayer) {
    forall r: Response :: t.parse(t.serialize(EncodeResponse(r))) == Some(EncodeResponse(r))
  }

  /** Reading an encoded response back reproduces it exactly. */
  lemma ResponseRoundTrip(r: Response)
    ensures ResponseFromWire(EncodeResponse(r)) == Some(r)
  {
    ParseFormat(r.date);
  }

  /**
   * The documented response: condition `cloudy`, maximum 25, minimum 7, and the date
   * of the documented request.
   */
  lemma EncodeDocumentedResponse()
    ensures var j := EncodeResponse(Response("cloudy", 25, 7, DateTime(2020, 4, 1, 12, 0, 0, 9 * 60)));
            && Lookup(j.members, "weather_condition") == Some(JString("cloudy"))
            && Lookup(j.members, "max_temperature") == Some(JNumber(25))
            && Lookup(j.members, "min_temperature") == Some(JNumber(7))
            && Lookup(j.members, "date") == Some(JString("2020-04-01T12:00:00+09:00"))
  {
    FormatDocumentedExample();
  }
}
