/**
 * The customer page's helpers: the weather glyph for a forecast condition,
 * the choice of the best laundry day from a forecast, the demo forecast used
 * when no live one is available, the colour of an order status, and the
 * guard in front of the order search.
 */
module CustomerHome {
  import opened Wrappers
  import opened Text

  /** One forecast entry: time in seconds, main condition, temperature. */
  datatype Forecast = Forecast(dt: int, main: string, temp: int)

  const RainIcon := "\U{1F327}\U{FE0F}"
  const CloudIcon := "\U{2601}\U{FE0F}"
  const SunIcon := "\U{2600}\U{FE0F}"
  const StormIcon := "\U{26C8}\U{FE0F}"
  const SnowIcon := "\U{2744}\U{FE0F}"
  const FogIcon := "\U{1F32B}\U{FE0F}"
  const DefaultIcon := "\U{1F324}\U{FE0F}"

  /** The lower-cased condition contains `word`. */
  predicate Mentions(condition: string, word: string) {
    Includes(ToLower(condition), word)
  }

  /**
   * `getWeatherIcon`: the glyph of the first keyword group the lower-cased
   * condition mentions, in the order rain/drizzle, cloud, clear/sun,
   * storm/thunder, snow, mist/fog; the default glyph when it mentions none.
   */
  function WeatherIcon(condition: string): (icon: string)
    ensures icon == RainIcon <==> Mentions(condition, "rain") || Mentions(condition, "drizzle")
    ensures icon == CloudIcon <==>
      !Mentions(condition, "rain") && !Mentions(condition, "drizzle") && Mentions(condition, "cloud")
    ensures icon == SunIcon <==>
      !Mentions(condition, "rain") && !Mentions(condition, "drizzle") && !Mentions(condition, "cloud")
      && (Mentions(condition, "clear") || Mentions(condition, "sun"))
    ensures icon == StormIcon <==>
      !Mentions(condition, "rain") && !Mentions(condition, "drizzle") && !Mentions(condition, "cloud")
      && !Mentions(condition, "clear") && !Mentions(condition, "sun")
      && (Mentions(condition, "storm") || Mentions(condition, "thunder"))
    ensures icon == DefaultIcon <==>
      !Mentions(condition, "rain") && !Mentions(condition, "drizzle") && !Mentions(condition, "cloud")
      && !Mentions(condition, "clear") && !Mentions(condition, "sun")
      && !Mentions(condition, "storm") && !Mentions(condition, "thunder")
      && !Mentions(condition, "snow") && !Mentions(condition, "mist") && !Mentions(condition, "fog")
    ensures icon == SnowIcon <==>
      !Mentions(condition, "rain") && !Mentions(condition, "drizzle") && !Mentions(condition, "cloud")
      && !Mentions(condition, "clear") && !Mentions(condition, "sun")
      && !Mentions(condition, "storm") && !Mentions(condition, "thunder")
      && Mentions(condition, "snow")
    ensures icon == FogIcon <==>
      !Mentions(condition, "rain") && !Mentions(condition, "drizzle") && !Mentions(condition, "cloud")
      && !Mentions(condition, "clear") && !Mentions(condition, "sun")
      && !Mentions(condition, "storm") && !Mentions(condition, "thunder")
      && !Mentions(condition, "snow") && (Mentions(condition, "mist") || Mentions(condition, "fog"))
  {
    IconsDistinct();
    var lower := ToLower(condition);
    if Includes(lower, "rain") || Includes(lower, "drizzle") then RainIcon
    else if Includes(lower, "cloud") then CloudIcon
    else if Includes(lower, "clear") || Includes(lower, "sun") then SunIcon
    else if Includes(lower, "storm") || Includes(lower, "thunder") then StormIcon
    else if Includes(lower, "snow") then SnowIcon
    else if Includes(lower, "mist") || Includes(lower, "fog") then FogIcon
    else DefaultIcon
  }

  lemma IconsDistinct()
    ensures RainIcon != CloudIcon && RainIcon != SunIcon && RainIcon != StormIcon && RainIcon != SnowIcon
    ensures RainIcon != FogIcon && RainIcon != DefaultIcon
    ensures CloudIcon != SunIcon && CloudIcon != StormIcon && CloudIcon != SnowIcon && CloudIcon != FogIcon
    ensures CloudIcon != DefaultIcon
    ensures SunIcon != StormIcon && SunIcon != SnowIcon && SunIcon != FogIcon && SunIcon != DefaultIcon
    ensures StormIcon != SnowIcon && StormIcon != FogIcon && StormIcon != DefaultIcon
    ensures SnowIcon != FogIcon && SnowIcon != DefaultIcon
    ensures FogIcon != DefaultIcon
  {
    assert RainIcon[0] == '\U{1F327}' && CloudIcon[0] == '\U{2601}' && SunIcon[0] == '\U{2600}';
    assert StormIcon[0] == '\U{26C8}' && SnowIcon[0] == '\U{2744}' && FogIcon[0] == '\U{1F32B}';
    assert DefaultIcon[0] == '\U{1F324}';
  }

  /** The glyph does not depend on letter case. */
  lemma WeatherIconIgnoresCase(condition: string)
    ensures WeatherIcon(ToLower(condition)) == WeatherIcon(condition)
  {
    ToLowerIdempotent(condition);
  }

  /** A word with a letter that `s` lacks does not occur in `s`. */
  lemma MissingLetter(s: string, word: string, c: char)
    requires c in word && c !in s
    ensures !Includes(s, word)
  {
    IncludesIff(s, word);
  }

  /** A laundry day: the condition mentions neither rain nor storm. */
  predicate IsGoodDay(entry: Forecast) {
    !Mentions(entry.main, "rain") && !Mentions(entry.main, "storm")
  }

  /**
   * The `findIndex` of `findBestLaundryDay`: the first good day, or -1 when
   * there is none; every entry before the result is not a good day.
   */
  function BestDayIndex(forecast: seq<Forecast>): (i: int)
    ensures -1 <= i < |forecast|
    ensures i >= 0 ==> IsGoodDay(forecast[i])
    ensures forall k :: 0 <= k < |forecast| && (i < 0 || k < i) ==> !IsGoodDay(forecast[k])
  {
    if forecast == [] then -1
    else if IsGoodDay(forecast[0]) then 0
    else
      var j := BestDayIndex(forecast[1..]);
      assert forall k :: 1 <= k < |forecast| ==> forecast[k] == forecast[1..][k - 1];
      if j < 0 then -1 else j + 1
  }

  /** The date shown for the best day: the entry's date, or the word "Tomorrow". */
  datatype DayLabel = Tomorrow | DateOf(dt: int)

  datatype BestDay = BestDay(date: DayLabel, temp: int, condition: string)

  /**
   * `findBestLaundryDay`: the first good day with its date, temperature and
   * condition; when no entry is good, entry 0 labelled "Tomorrow". Its
   * callers pass a non-empty forecast (entry 0 must exist).
   */
  function FindBestLaundryDay(forecast: seq<Forecast>): (best: BestDay)
    requires |forecast| > 0
    ensures best.date == Tomorrow <==> forall k :: 0 <= k < |forecast| ==> !IsGoodDay(forecast[k])
    ensures best.date == Tomorrow ==> best.temp == forecast[0].temp && best.condition == forecast[0].main
    ensures best.date != Tomorrow ==>
      exists i :: 0 <= i < |forecast| && IsGoodDay(forecast[i])
        && (forall k :: 0 <= k < i ==> !IsGoodDay(forecast[k]))
        && best == BestDay(DateOf(forecast[i].dt), forecast[i].temp, forecast[i].main)
  {
    var i := BestDayIndex(forecast);
    if i != -1 then BestDay(DateOf(forecast[i].dt), forecast[i].temp, forecast[i].main)
    else BestDay(Tomorrow, forecast[0].temp, forecast[0].main)
  }

  /** The number of entries of the demo forecast and the hours between them. */
  const DemoLength := 40
  const DemoStepSeconds := 3 * 3600

  /** Entry `i` of the demo forecast starting at `now`: rain at entry 8 only. */
  function DemoEntry(now: int, i: int): Forecast {
    Forecast(now + DemoStepSeconds * i, if i == 8 then "Rain" else "Clear", 28 + i % 5)
  }

  /** The loop of `setDemoWeather`: pushes the 40 demo entries in order. */
  method DemoForecast(now: int) returns (list: seq<Forecast>)
    ensures |list| == DemoLength
    ensures forall i :: 0 <= i < DemoLength ==> list[i] == DemoEntry(now, i)
  {
    list := [];
    for i := 0 to DemoLength
      invariant |list| == i
      invariant forall k :: 0 <= k < i ==> list[k] == DemoEntry(now, k)
    {
      list := list + [Forecast(now + DemoStepSeconds * i, if i == 8 then "Rain" else "Clear", 28 + i % 5)];
    }
  }

  /** Entry `i` of the demo forecast is a laundry day unless `i` is 8. */
  lemma DemoEntryIsGoodDay(now: int, i: int)
    ensures IsGoodDay(DemoEntry(now, i)) <==> i != 8
  {
    if i == 8 {
      RainIsNoLaundryDay(DemoEntry(now, i));
    } else {
      ClearIsLaundryDay(DemoEntry(now, i));
    }
  }

  lemma ClearIsLaundryDay(entry: Forecast)
    requires entry.main == "Clear"
    ensures IsGoodDay(entry)
  {
    ClearKeywords();
  }

  lemma RainIsNoLaundryDay(entry: Forecast)
    requires entry.main == "Rain"
    ensures !IsGoodDay(entry)
  {
    assert ToLower("Rain") == "rain";
    assert "rain"[..|"rain"|] == "rain";
  }

  /** "Clear" lower-cases to "clear", which contains neither "rain" nor "storm". */
  lemma ClearKeywords()
    ensures ToLower("Clear") == "clear" && !Includes("clear", "rain") && !Includes("clear", "storm")
  {
    assert ToLower("Clear") == "clear";
    MissingLetter("clear", "rain", 'i');
    MissingLetter("clear", "storm", 's');
  }

  /** "Drizzle" lower-cases to "drizzle", which contains neither "rain" nor "storm". */
  lemma DrizzleKeywords()
    ensures ToLower("Drizzle") == "drizzle" && !Includes("drizzle", "rain") && !Includes("drizzle", "storm")
  {
    assert ToLower("Drizzle") == "drizzle";
    MissingLetter("drizzle", "rain", 'a');
    MissingLetter("drizzle", "storm", 's');
  }

  /**
   * On the demo forecast the only entry that is not a laundry day is entry
   * 8, so the best day is entry 0: the current time, 28 degrees, "Clear".
   */
  lemma DemoBestDay(now: int, list: seq<Forecast>)
    requires |list| == DemoLength
    requires forall i :: 0 <= i < DemoLength ==> list[i] == DemoEntry(now, i)
    ensures forall i :: 0 <= i < DemoLength ==> (IsGoodDay(list[i]) <==> i != 8)
    ensures BestDayIndex(list) == 0
    ensures FindBestLaundryDay(list) == BestDay(DateOf(now), 28, "Clear")
  {
    forall i | 0 <= i < DemoLength
      ensures IsGoodDay(list[i]) <==> i != 8
    {
      DemoEntryIsGoodDay(now, i);
    }
    assert list[0] == Forecast(now, "Clear", 28);
  }

  /**
   * A drizzle is a laundry day (its condition mentions neither rain nor
   * storm) although its glyph is the rain glyph.
   */
  lemma DrizzleIsLaundryDay(dt: int, temp: int)
    ensures IsGoodDay(Forecast(dt, "Drizzle", temp))
    ensures WeatherIcon("Drizzle") == RainIcon
  {
    DrizzleMentions();
  }

  lemma DrizzleMentions()
    ensures !Mentions("Drizzle", "rain") && !Mentions("Drizzle", "storm") && Mentions("Drizzle", "drizzle")
  {
    DrizzleKeywords();
    assert "drizzle"[..|"drizzle"|] == "drizzle";
  }

  /** The colours of the known order statuses. */
  const StatusColors: map<string, string> := map[
    "pending" := "#ffc107",
    "processing" := "#17a2b8",
    "ready" := "#28a745",
    "completed" := "#28a745",
    "cancelled" := "#dc3545"]

  const OtherColor := "#6c757d"

  /**
   * `getStatusColor`: the colour of a known status, grey for any other;
   * grey is never the colour of a known status, ready and completed share
   * green.
   */
  function StatusColor(status: string): (color: string)
    ensures status in StatusColors ==> color == StatusColors[status]
    ensures color == OtherColor <==> status !in StatusColors
  {
    assert OtherColor[1] == '6';
    assert StatusColors["pending"][1] == 'f' && StatusColors["processing"][1] == '1';
    assert StatusColors["ready"][1] == '2' && StatusColors["completed"][1] == '2';
    assert StatusColors["cancelled"][1] == 'd';
    if status in StatusColors then StatusColors[status] else OtherColor
  }

  /** Ready and completed orders share the same green. */
  lemma ReadyAndCompletedShareGreen()
    ensures StatusColor("ready") == StatusColor("completed") == "#28a745"
  {
  }

  const NameMissing := "Please enter your name"

  /**
   * The guard of `handleSearch`: a name that is empty after trimming is
   * refused with an error; any other is searched for trimmed.
   */
  function SearchRequest(customerName: string): (r: Result<string, string>)
    ensures r.Failure? <==> Blank(customerName)
    ensures r.Failure? ==> r.error == NameMissing
    ensures r.Success? ==> r.value != [] && IsTrimmed(r.value) && r.value == Trim(customerName)
  {
    var trimmedName := Trim(customerName);
    if trimmedName == [] then Failure(NameMissing) else Success(trimmedName)
  }

  /** Surrounding whitespace changes nothing: searching for the trimmed name is the same. */
  lemma SearchIgnoresSurroundingSpace(customerName: string)
    ensures SearchRequest(Trim(customerName)) == SearchRequest(customerName)
  {
    TrimOfTrimmed(Trim(customerName));
  }
}
