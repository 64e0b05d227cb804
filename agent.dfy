/** The two tools of the weather/time agent: `get_weather` and
    `get_current_time`. Each answers for one city, New York, matched without
    regard to case, and reports anything else as an error result rather than
    raising. The clock reading `get_current_time` takes in America/New_York
    is a parameter here. */
module Agent {
  import opened CaseFold
  import opened Decimal
  import opened Timestamp

  /** The dictionary a tool returns: {"status": "success", "report": ...} or
      {"status": "error", "error_message": ...}. */
  datatype ToolResult = Success(report: string) | Error(errorMessage: string)

  /** The one supported city, in the lower-cased form the tools compare with. */
  const SUPPORTED_CITY: string := "new york"

  const NEW_YORK_WEATHER: string :=
    "The weather in New York is sunny with a temperature of 25 degrees Celsius (77 degrees Fahrenheit)."

  const WEATHER_ERROR_PREFIX: string := "Weather information for '"
  const WEATHER_ERROR_SUFFIX: string := "' is not available."
  const TIME_ERROR_PREFIX: string := "Sorry, I don't have timezone information for "
  const TIME_ERROR_SUFFIX: string := "."
  const TIME_REPORT_PREFIX: string := "The current time in "
  const TIME_REPORT_INFIX: string := " is "

  lemma SupportedCityIsLowerAscii()
    ensures IsLowerAsciiKey(SUPPORTED_CITY)
  {
  }

  /** get_weather: the canned New York report, or an error that quotes the
      city exactly as it was given. */
  function GetWeather(city: string): (r: ToolResult)
    ensures r.Success? <==> EqualsIgnoringCase(city, SUPPORTED_CITY)
    ensures r.Success? ==> r.report == NEW_YORK_WEATHER
    ensures r.Error? ==> r.errorMessage == WEATHER_ERROR_PREFIX + city + WEATHER_ERROR_SUFFIX
  {
    SupportedCityIsLowerAscii();
    LowerEqualsIff(city, SUPPORTED_CITY);
    if Lower(city) == SUPPORTED_CITY then
      Success(NEW_YORK_WEATHER)
    else
      Error(WEATHER_ERROR_PREFIX + city + WEATHER_ERROR_SUFFIX)
  }

  /** get_current_time: `now` is the clock read in America/New_York. On a
      match the report is the city as given followed by the reading rendered
      with "%Y-%m-%d %H:%M:%S %Z%z"; otherwise an error quoting the city. */
  function GetCurrentTime(city: string, now: ZonedTime): (r: ToolResult)
    ensures r.Success? <==> EqualsIgnoringCase(city, SUPPORTED_CITY)
    ensures r.Success? ==> r.report == TIME_REPORT_PREFIX + city + TIME_REPORT_INFIX + Format(now)
    ensures r.Error? ==> r.errorMessage == TIME_ERROR_PREFIX + city + TIME_ERROR_SUFFIX
  {
    SupportedCityIsLowerAscii();
    LowerEqualsIff(city, SUPPORTED_CITY);
    if Lower(city) == SUPPORTED_CITY then
      Success(TIME_REPORT_PREFIX + city + TIME_REPORT_INFIX + Format(now))
    else
      Error(TIME_ERROR_PREFIX + city + TIME_ERROR_SUFFIX)
  }

  /** The result as the dictionary the tool returns. */
  function AsDict(r: ToolResult): (d: map<string, string>)
    ensures "status" in d && d.Keys <= {"status", "report", "error_message"}
    ensures ("report" in d) != ("error_message" in d)
    ensures "report" in d <==> d["status"] == "success"
    ensures "error_message" in d <==> d["status"] == "error"
  {
    match r
    case Success(report) => map["status" := "success", "report" := report]
    case Error(message) => map["status" := "error", "error_message" := message]
  }

  /** How a caller reads a tool's dictionary: by its status, then the one
      payload that status names. */
  function FromDict(d: map<string, string>): Option<ToolResult> {
    if "status" !in d then None
    else if d["status"] == "success" && "report" in d then Some(Success(d["report"]))
    else if d["status"] == "error" && "error_message" in d then Some(Error(d["error_message"]))
    else None
  }

  /** The dictionary carries exactly the result: branching on "status" and
      reading its payload gives back the result. */
  lemma DictRoundTrip(r: ToolResult)
    ensures FromDict(AsDict(r)) == Some(r)
  {
  }

  /** The text `message` wraps between `prefix` and `suffix`, if it has that shape. */
  function Unwrap(message: string, prefix: string, suffix: string): Option<string> {
    if |message| >= |prefix| + |suffix| && prefix <= message && message[|message| - |suffix|..] == suffix
    then Some(message[|prefix|..|message| - |suffix|])
    else None
  }

  lemma UnwrapWrap(prefix: string, text: string, suffix: string)
    ensures Unwrap(prefix + text + suffix, prefix, suffix) == Some(text)
  {
  }

  /** Both error messages hold the city verbatim: it can be read back out of
      the message, untrimmed and not lower-cased. */
  lemma ErrorsQuoteCity(city: string, now: ZonedTime)
    requires !EqualsIgnoringCase(city, SUPPORTED_CITY)
    ensures Unwrap(GetWeather(city).errorMessage, WEATHER_ERROR_PREFIX, WEATHER_ERROR_SUFFIX) == Some(city)
    ensures Unwrap(GetCurrentTime(city, now).errorMessage, TIME_ERROR_PREFIX, TIME_ERROR_SUFFIX) == Some(city)
  {
  }

  /** Both tools apply the same support test. */
  lemma SameSupportTest(city: string, now: ZonedTime)
    ensures GetWeather(city).Error? <==> GetCurrentTime(city, now).Error?
  {
  }

  /** Spellings that differ only in case get the same answer from get_weather:
      the same variant, and on success the very same report. */
  lemma WeatherIgnoresCase(a: string, b: string)
    requires Lower(a) == Lower(b)
    ensures GetWeather(a).Success? <==> GetWeather(b).Success?
    ensures GetWeather(a).Success? ==> GetWeather(a) == GetWeather(b)
  {
  }

  /** Spellings that differ only in case get the same variant from
      get_current_time, and on success reports that differ only in the
      quoted city: the timestamp after it is the same. */
  lemma TimeIgnoresCase(a: string, b: string, now: ZonedTime)
    requires Lower(a) == Lower(b)
    ensures GetCurrentTime(a, now).Success? <==> GetCurrentTime(b, now).Success?
    ensures GetCurrentTime(a, now).Success? ==>
      var ra, rb := GetCurrentTime(a, now).report, GetCurrentTime(b, now).report;
      |ra| - |a| == |rb| - |b| && ra[24 + |a|..] == rb[24 + |b|..]
  {
    SupportedCityIsLowerAscii();
    LowerEqualsIff(a, SUPPORTED_CITY);
    LowerEqualsIff(b, SUPPORTED_CITY);
    if GetCurrentTime(a, now).Success? {
      var ra, rb := GetCurrentTime(a, now).report, GetCurrentTime(b, now).report;
      assert ra == (TIME_REPORT_PREFIX + a + TIME_REPORT_INFIX) + Format(now);
      assert rb == (TIME_REPORT_PREFIX + b + TIME_REPORT_INFIX) + Format(now);
      assert ra[24 + |a|..] == Format(now);
      assert rb[24 + |b|..] == Format(now);
    }
  }

  /** A time report is "The current time in <city> is " followed by a
      timestamp of 25 characters plus the zone abbreviation, and that
      timestamp reads back as exactly the clock reading it was made from. */
  lemma TimeReportRoundTrip(city: string, now: ZonedTime)
    requires EqualsIgnoringCase(city, SUPPORTED_CITY) && Valid(now)
    ensures var report := GetCurrentTime(city, now).report;
      && |report| == 24 + |city| + 25 + |now.abbreviation|
      && report[..24 + |city|] == TIME_REPORT_PREFIX + city + TIME_REPORT_INFIX
      && Parse(report[24 + |city|..]) == Some(now)
  {
    FormatLayout(now);
    ParseFormat(now);
    var report := GetCurrentTime(city, now).report;
    assert report == (TIME_REPORT_PREFIX + city + TIME_REPORT_INFIX) + Format(now);
  }

  /** `word` occurs somewhere in `s`. */
  predicate Contains(s: string, word: string) {
    exists i :: 0 <= i <= |s| && word <= s[i..]
  }

  /** The weather error never adds the word "sunny" of its own: it contains
      "sunny" exactly when the city it quotes does. */
  lemma WeatherErrorSunny(city: string)
    requires !EqualsIgnoringCase(city, SUPPORTED_CITY)
    ensures Contains(GetWeather(city).errorMessage, "sunny") <==> Contains(city, "sunny")
  {
    var m := GetWeather(city).errorMessage;
    WrappedSunny(WEATHER_ERROR_PREFIX, city, WEATHER_ERROR_SUFFIX);
  }

  /** A word starting with 's' and ending in 'y', wrapped between text with
      no 's' before it and text with no 'y' after it, occurs in the whole
      exactly when it occurs in the middle. */
  lemma WrappedSunny(p: string, city: string, q: string)
    requires 's' !in p && 'y' !in q
    ensures Contains(p + city + q, "sunny") <==> Contains(city, "sunny")
  {
    var m := p + city + q;
    var n := |p|;
    if Contains(city, "sunny") {
      var i :| 0 <= i <= |city| && "sunny" <= city[i..];
      assert m[n + i..] == city[i..] + q;
      assert "sunny" <= m[n + i..];
    }
    if Contains(m, "sunny") {
      var j :| 0 <= j <= |m| && "sunny" <= m[j..];
      forall k | 0 <= k < n ensures m[k] != 's' {
        assert m[k] == p[k];
      }
      forall k | n + |city| <= k < |m| ensures m[k] != 'y' {
        assert m[k] == q[k - n - |city|];
      }
      assert m[j] == 's' && m[j + 4] == 'y';
      assert city[j - n..] == m[j..n + |city|];
      assert "sunny" <= city[j - n..];
    }
  }

  /** The examples given for get_weather: three spellings of New York, and
      one with the Kelvin sign for the K, get the identical report. */
  lemma WeatherExamplesNewYork()
    ensures GetWeather("New York") == Success(NEW_YORK_WEATHER)
    ensures GetWeather("new york") == GetWeather("New York")
    ensures GetWeather("NEW YORK") == GetWeather("New York")
    ensures GetWeather("NEW YOR\U{212A}") == GetWeather("New York")
  {
  }

  /** The Beijing example: the error names the city as given. */
  lemma WeatherExampleBeijing()
    ensures GetWeather("Beijing") == Error("Weather information for 'Beijing' is not available.")
  {
  }

  /** The comparison neither trims nor collapses spaces. */
  lemma WeatherExamplesSpacing()
    ensures GetWeather(" New York").Error? && GetWeather("NewYork").Error?
  {
  }

  /** The example given for get_current_time in New York: the reading of
      1 April 2023, 14:30:45 EDT. */
  lemma TimeExampleNewYork()
    ensures GetCurrentTime("New York", ZonedTime(2023, 4, 1, 14, 30, 45, "EDT", -240))
      == Success("The current time in New York is 2023-04-01 14:30:45 EDT-0400")
  {
    var now := ZonedTime(2023, 4, 1, 14, 30, 45, "EDT", -240);
    FormatExample();
    assert EqualsIgnoringCase("New York", SUPPORTED_CITY);
    assert GetCurrentTime("New York", now).report
      == TIME_REPORT_PREFIX + "New York" + TIME_REPORT_INFIX + "2023-04-01 14:30:45 EDT-0400";
    ExampleReportText();
  }

  lemma ExampleReportText()
    ensures TIME_REPORT_PREFIX + "New York" + TIME_REPORT_INFIX + "2023-04-01 14:30:45 EDT-0400"
      == "The current time in New York is 2023-04-01 14:30:45 EDT-0400"
  {
    assert TIME_REPORT_PREFIX + "New York" == "The current time in New York";
    assert "The current time in New York" + TIME_REPORT_INFIX == "The current time in New York is ";
    assert "The current time in New York is " + "2023-04-01 14:30:45 EDT-0400"
      == "The current time in New York is 2023-04-01 14:30:45 EDT-0400";
  }

  /** The example given for get_current_time elsewhere: Tokyo. */
  lemma TimeExampleTokyo(now: ZonedTime)
    ensures GetCurrentTime("Tokyo", now)
      == Error("Sorry, I don't have timezone information for Tokyo.")
  {
  }
}
