/**
 * `makeRandomResponse`: each field of a response comes from its override or, in the order
 * condition, maximum, minimum, from the next draw of a generator seeded with the seed.
 */
module ResponseFactory {
  import opened Wrappers
  import opened DateLayout
  import opened Weather
  import opened SeededRandom

  /** The optional arguments; `None` means "draw it" (for the date: "now"). */
  datatype Overrides = Overrides(condition: Option<WeatherCondition>, maxTemperature: Option<Int64>,
                                 minTemperature: Option<Int64>, date: Option<Timestamp>)

  const NoOverrides := Overrides(None, None, None, None)

  /** Only the date given, as `fetchWeather` asks for it. */
  function DateOnly(date: Timestamp): Overrides {
    Overrides(None, None, None, Some(date))
  }

  /**
   * When the minimum is drawn from `-40..<max`, that range must not be empty: Swift traps
   * otherwise. Only an overridden maximum of -40 or less can make it empty.
   */
  predicate Drawable(o: Overrides) {
    o.minTemperature.None? && o.maxTemperature.Some? ==> o.maxTemperature.value > -40
  }

  /** Position in the stream of the draw for the maximum: after the condition, if that was drawn. */
  function MaxSlot(o: Overrides): nat {
    if o.condition.None? then 1 else 0
  }

  /** Position of the draw for the minimum: after those for the condition and the maximum. */
  function MinSlot(o: Overrides): nat {
    MaxSlot(o) + if o.maxTemperature.None? then 1 else 0
  }

  /** How many draws a response takes: one per field that is not overridden. */
  function DrawCount(o: Overrides): nat {
    MinSlot(o) + if o.minTemperature.None? then 1 else 0
  }

  /**
   * The response built from `seed`: draw 0 goes to the first field drawn, draw 1 to the
   * next, and so on; an overridden field takes no draw.
   */
  function Seeded(family: DrawFamily, o: Overrides, seed: Int64, now: Timestamp): (r: Response)
    requires Drawable(o)
    ensures r.weatherCondition in ConditionNames
    ensures o.condition.Some? ==> r.weatherCondition == RawValue(o.condition.value)
    ensures o.maxTemperature.Some? ==> r.maxTemperature == o.maxTemperature.value
    ensures o.maxTemperature.None? ==> 10 <= r.maxTemperature <= 40
    ensures o.minTemperature.Some? ==> r.minTemperature == o.minTemperature.value
    ensures o.minTemperature.None? ==> -40 <= r.minTemperature < r.maxTemperature
    ensures r.date == if o.date.Some? then o.date.value else now
  {
    var condition :=
      if o.condition.Some? then o.condition.value
      else AllCases[DrawAt(family, seed, 0, 0, |AllCases| - 1)];
    var max: Int64 :=
      if o.maxTemperature.Some? then o.maxTemperature.value
      else DrawAt(family, seed, MaxSlot(o), 10, 40);
    var min: Int64 :=
      if o.minTemperature.Some? then o.minTemperature.value
      else DrawAt(family, seed, MinSlot(o), -40, max - 1);
    Response(RawValue(condition), max, min, if o.date.Some? then o.date.value else now)
  }

  /**
   * The private `makeRandomResponse(…, seed:)`: one generator, advanced in place by each
   * draw it makes. `now` stands for `Date()`, read only when no date is given.
   */
  method MakeSeededResponse(family: DrawFamily, o: Overrides, seed: Int64, now: Timestamp)
    returns (r: Response)
    requires Drawable(o)
    ensures r == Seeded(family, o, seed, now)
  {
    var generator := new SeededGenerator(family, seed);
    var condition: WeatherCondition;
    if o.condition.Some? {
      condition := o.condition.value;
    } else {
      var pick := generator.RandomElement(AllCases);
      condition := pick.value;
    }
    assert generator.taken == MaxSlot(o);
    var max: Int64;
    if o.maxTemperature.Some? {
      max := o.maxTemperature.value;
    } else {
      max := generator.NextInRange(10, 40);
    }
    assert generator.taken == MinSlot(o);
    var min: Int64;
    if o.minTemperature.Some? {
      min := o.minTemperature.value;
    } else {
      min := generator.NextInRange(-40, max - 1);
    }
    assert generator.taken == DrawCount(o);
    var date := if o.date.Some? then o.date.value else now;
    r := Response(RawValue(condition), max, min, date);
  }

  /**
   * The internal `makeRandomResponse(…, seed: Int? = nil)`: with no seed, one is drawn
   * from the whole range of `Int`; that draw is `defaultSeed`.
   */
  function MakeRandomResponse(family: DrawFamily, o: Overrides, seed: Option<Int64>,
                              defaultSeed: Int64, now: Timestamp): (r: Response)
    requires Drawable(o)
    ensures seed.Some? ==> r == Seeded(family, o, seed.value, now)
    ensures seed.None? ==> r == Seeded(family, o, defaultSeed, now)
  {
    Seeded(family, o, seed.GetOr(defaultSeed), now)
  }

  /**
   * Reproducibility: a response depends on the generator only through the first
   * `DrawCount(o)` values of its seed's stream, so the same seed and overrides always give the
   * same response, and with every field overridden the generator is not consulted at all.
   * With a date given, the clock is not consulted either.
   */
  lemma DependsOnlyOnDrawsTaken(f: DrawFamily, g: DrawFamily, o: Overrides, seed: Int64,
                                n1: Timestamp, n2: Timestamp)
    requires Drawable(o)
    requires forall k :: 0 <= k < DrawCount(o) ==> f(seed, k) == g(seed, k)
    ensures o.date.Some? || n1 == n2 ==> Seeded(f, o, seed, n1) == Seeded(g, o, seed, n2)
  {
    if o.condition.None? {
      assert f(seed, 0) == g(seed, 0);
    }
    if o.maxTemperature.None? {
      assert f(seed, MaxSlot(o)) == g(seed, MaxSlot(o));
    }
    if o.minTemperature.None? {
      assert f(seed, MinSlot(o)) == g(seed, MinSlot(o));
    }
  }

  /** With a seed given, the unseeded fallback draw has no effect. */
  lemma ExplicitSeedIgnoresDefault(family: DrawFamily, o: Overrides, seed: Int64,
                                   d1: Int64, d2: Int64, now: Timestamp)
    requires Drawable(o)
    ensures MakeRandomResponse(family, o, Some(seed), d1, now)
         == MakeRandomResponse(family, o, Some(seed), d2, now)
  {
  }

  /** The stream `f` with its draw at position `p` taken out: later draws move up by one. */
  function SkipDraw(f: DrawFamily, p: nat): DrawFamily {
    (s: Int64, k: nat) => if k < p then f(s, k) else f(s, k + 1)
  }

  /**
   * The condition takes the first draw: overriding it removes draw 0 from the stream and
   * changes nothing else.
   */
  lemma ConditionOverrideSkipsFirstDraw(f: DrawFamily, o: Overrides, seed: Int64, now: Timestamp,
                                        c: WeatherCondition)
    requires Drawable(o) && o.condition.None?
    ensures Seeded(SkipDraw(f, 0), o.(condition := Some(c)), seed, now)
         == Seeded(f, o, seed, now).(weatherCondition := RawValue(c))
  {
    var o' := o.(condition := Some(c));
    assert MaxSlot(o') == MaxSlot(o) - 1 && MinSlot(o') == MinSlot(o) - 1;
  }

  /**
   * The maximum takes the draw after the condition's: overriding it with the value it drew
   * and removing that draw gives the same response, so the minimum is drawn after it.
   */
  lemma MaxOverrideSkipsItsDraw(f: DrawFamily, o: Overrides, seed: Int64, now: Timestamp)
    requires Drawable(o) && o.maxTemperature.None?
    ensures var r := Seeded(f, o, seed, now);
            Seeded(SkipDraw(f, MaxSlot(o)), o.(maxTemperature := Some(r.maxTemperature)), seed, now) == r
  {
    var r := Seeded(f, o, seed, now);
    var o' := o.(maxTemperature := Some(r.maxTemperature));
    var g := SkipDraw(f, MaxSlot(o));
    var r' := Seeded(g, o', seed, now);
    if o.condition.None? {
      assert g(seed, 0) == f(seed, 0);
    }
    if o.minTemperature.None? {
      assert MinSlot(o') == MaxSlot(o) && g(seed, MaxSlot(o)) == f(seed, MinSlot(o));
      assert r'.minTemperature == r.minTemperature;
    }
  }

  /** The minimum takes the last draw: overriding it with the value it drew changes nothing. */
  lemma MinOverrideKeepsResponse(f: DrawFamily, o: Overrides, seed: Int64, now: Timestamp)
    requires Drawable(o) && o.minTemperature.None?
    ensures var r := Seeded(f, o, seed, now);
            Seeded(f, o.(minTemperature := Some(r.minTemperature)), seed, now) == r
  {
  }

  /**
   * `Drawable` is exactly the condition under which `-40..<max` is not empty when the
   * minimum is drawn, whatever the maximum resolves to.
   */
  lemma DrawableIffMinimumRangeNonEmpty(f: DrawFamily, o: Overrides, seed: Int64)
    requires o.minTemperature.None?
    ensures Drawable(o) <==>
            -40 < if o.maxTemperature.Some? then o.maxTemperature.value else DrawAt(f, seed, MaxSlot(o), 10, 40)
  {
  }

  /**
   * Overrides are not checked against each other: with the minimum given, even one above
   * the drawn or given maximum is passed through.
   */
  lemma OverriddenMinimumUnchecked(family: DrawFamily, seed: Int64, now: Timestamp)
    ensures var r := Seeded(family, Overrides(None, Some(5), Some(7), None), seed, now);
            r.minTemperature > r.maxTemperature
    ensures var r := Seeded(family, Overrides(None, None, Some(50), None), seed, now);
            r.minTemperature > r.maxTemperature
  {
  }
}
