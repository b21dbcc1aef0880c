/**
 * The forecast records of src/data/weather.rs and the three pure operations on them:
 * the 24-hour projection `hourly_weather_for`, the point lookup `weather_lookup` and the
 * WMO weather-code table `get_weather_description`.
 *
 * Timestamps stay strings. chrono's parsers are abstract: a `Parsers` value supplies one
 * partial function per format string the source uses, so every property below holds for
 * any parser. `unwrap_or_default` gives chrono's default, 1970-01-01T00:00.
 */
module Forecast {
  import opened Wrappers
  import opened Seqs
  import opened Text

  /** A calendar date (`NaiveDate`), ISO 8601 extended format `YYYY-MM-DD`. */
  datatype Date = Date(year: int, month: nat, day: nat)

  /** A local date and time at minute precision (`NaiveDateTime`), `YYYY-MM-DDTHH:MM`. */
  datatype DateTime = DateTime(date: Date, hour: nat, minute: nat)

  /** `NaiveDate::default()` and `NaiveDateTime::default()`: the Unix epoch. */
  const DefaultDate := Date(1970, 1, 1)
  const DefaultDateTime := DateTime(DefaultDate, 0, 0)

  /**
   * The chrono parses the source performs:
   * `date` is `NaiveDate::parse_from_str(_, "%Y-%m-%d")`,
   * `dateTime` is `NaiveDateTime::parse_from_str(_, "%Y-%m-%dT%H:%M")`,
   * `dateTimeOfDay` is `NaiveDateTime::parse_from_str(_, "%Y-%m-%d")`.
   */
  datatype Parsers = Parsers(
    date: string -> Option<Date>,
    dateTime: string -> Option<DateTime>,
    dateTimeOfDay: string -> Option<DateTime>)

  /** An `f32` temperature, kept as its bit pattern: the model only copies it. */
  datatype F32 = F32(bits: bv32)

  /** `OpenMeteoHourly`: parallel vectors, index i across them is one hour. */
  datatype OpenMeteoHourly = OpenMeteoHourly(
    dateTime: seq<string>,
    temperature2m: seq<F32>,
    apparentTemperature: seq<F32>,
    precipitationProbability: seq<u16>,
    weatherCode: seq<u16>)

  /** `OpenMeteoDaily`: parallel vectors, index i across them is one day. */
  datatype OpenMeteoDaily = OpenMeteoDaily(
    date: seq<string>,
    weatherCode: seq<u16>,
    temperature2mMax: seq<F32>,
    apparentTemperatureMax: seq<F32>,
    precipitationProbabilityMax: seq<u16>)

  datatype OpenMeteoResponse = OpenMeteoResponse(hourly: OpenMeteoHourly, daily: OpenMeteoDaily)

  /** `OpenMeteoDaily::default()`: every vector empty. */
  const EmptyDaily := OpenMeteoDaily([], [], [], [], [])

  /** `OpenMeteoResponse::default()`. */
  const DefaultResponse := OpenMeteoResponse(OpenMeteoHourly([], [], [], [], []), EmptyDaily)

  /** One displayed point of the forecast. */
  datatype Weather = Weather(weatherCode: u16, precip: u16, temp: F32, apparentTemp: F32, dateTime: DateTime)

  datatype WeatherQuery = Daily(date: Date) | Hourly(dateTime: DateTime)

  /** The calendar date of an hourly timestamp, an unparseable one counting as the default. */
  function StampDate(p: Parsers, stamp: string): Date
  {
    p.dateTime(stamp).UnwrapOr(DefaultDateTime).date
  }

  /** The predicate `hourly_weather_for` hands to `position`. */
  function OnDate(p: Parsers, date: Date): string -> bool
  {
    stamp => StampDate(p, stamp) == date
  }

  /**
   * The first hour of the projection: the first timestamp on `date`, or 0 when there is none
   * (`position(..).unwrap_or_default()`).
   */
  function StartIndex(p: Parsers, hourly: OpenMeteoHourly, date: Date): (start: nat)
    ensures (exists i :: 0 <= i < |hourly.dateTime| && StampDate(p, hourly.dateTime[i]) == date) ==>
      && start < |hourly.dateTime| && StampDate(p, hourly.dateTime[start]) == date
      && forall j :: 0 <= j < start ==> StampDate(p, hourly.dateTime[j]) != date
    ensures (forall i :: 0 <= i < |hourly.dateTime| ==> StampDate(p, hourly.dateTime[i]) != date) ==>
      start == 0
  {
    FirstIndex(hourly.dateTime, OnDate(p, date)).UnwrapOr(0)
  }

  /** Every hourly vector has at least `n` entries, so indices below `n` do not panic. */
  predicate HourlyCovers(h: OpenMeteoHourly, n: nat)
  {
    && n <= |h.dateTime| && n <= |h.temperature2m| && n <= |h.apparentTemperature|
    && n <= |h.precipitationProbability| && n <= |h.weatherCode|
  }

  /** The record `hourly_weather_for` pushes for hourly index `i`. */
  function HourlyEntry(p: Parsers, h: OpenMeteoHourly, i: nat): (w: Weather)
    requires HourlyCovers(h, i + 1)
  {
    Weather(
      weatherCode := h.weatherCode[i],
      precip := h.precipitationProbability[i],
      temp := h.temperature2m[i],
      apparentTemp := h.apparentTemperature[i],
      dateTime := p.dateTime(h.dateTime[i]).UnwrapOr(DefaultDateTime))
  }

  /**
   * `hourly_weather_for`: the 24 hourly records from the start index on. The source indexes
   * every vector at `start + 23`, so shorter vectors panic; that is the precondition.
   */
  method HourlyWeatherFor(p: Parsers, data: OpenMeteoResponse, date: Date) returns (v: seq<Weather>)
    requires HourlyCovers(data.hourly, StartIndex(p, data.hourly, date) + 24)
    ensures |v| == 24
    ensures var start := StartIndex(p, data.hourly, date);
      forall k :: 0 <= k < 24 ==>
        && v[k].weatherCode == data.hourly.weatherCode[start + k]
        && v[k].temp == data.hourly.temperature2m[start + k]
        && v[k].apparentTemp == data.hourly.apparentTemperature[start + k]
        && v[k].precip == data.hourly.precipitationProbability[start + k]
        && v[k].dateTime == p.dateTime(data.hourly.dateTime[start + k]).UnwrapOr(DefaultDateTime)
  {
    v := [];
    var startIndex := StartIndex(p, data.hourly, date);
    for i := startIndex to startIndex + 24
      invariant |v| == i - startIndex
      invariant forall k :: 0 <= k < |v| ==> v[k] == HourlyEntry(p, data.hourly, startIndex + k)
    {
      v := v + [HourlyEntry(p, data.hourly, i)];
    }
  }

  /**
   * When some timestamp falls on the requested date, the projection begins with that day's
   * first hour.
   */
  lemma ProjectionStartsOnDate(p: Parsers, h: OpenMeteoHourly, date: Date, i: nat)
    requires i < |h.dateTime| && StampDate(p, h.dateTime[i]) == date
    requires HourlyCovers(h, StartIndex(p, h, date) + 24)
    ensures HourlyEntry(p, h, StartIndex(p, h, date)).dateTime.date == date
    ensures StartIndex(p, h, date) <= i
  {
  }

  /** The predicate `weather_lookup` hands to `position` for a daily query. */
  function DayIs(p: Parsers, date: Date): string -> bool
  {
    s => p.date(s).UnwrapOr(DefaultDate) == date
  }

  /** The predicate `weather_lookup` hands to `position` for an hourly query. */
  function HourIs(p: Parsers, dateTime: DateTime): string -> bool
  {
    s => p.dateTime(s).UnwrapOr(DefaultDateTime) == dateTime
  }

  /** The index `weather_lookup` reads: the first entry matching the query, if any. */
  function LookupIndex(p: Parsers, data: OpenMeteoResponse, q: WeatherQuery): Option<nat>
  {
    match q
    case Daily(date) => FirstIndex(data.daily.date, DayIs(p, date))
    case Hourly(dateTime) => FirstIndex(data.hourly.dateTime, HourIs(p, dateTime))
  }

  /**
   * The lookup does not panic. A daily lookup indexes all four daily vectors before it
   * parses the date; an hourly one parses the timestamp first and returns `None` before
   * it indexes anything else when that parse fails.
   */
  predicate LookupInBounds(p: Parsers, data: OpenMeteoResponse, q: WeatherQuery)
  {
    var idx := LookupIndex(p, data, q);
    idx.Some? ==>
      match q
      case Daily(_) =>
        var i := idx.value;
        && i < |data.daily.weatherCode| && i < |data.daily.temperature2mMax|
        && i < |data.daily.precipitationProbabilityMax| && i < |data.daily.apparentTemperatureMax|
      case Hourly(_) =>
        var i := idx.value;
        p.dateTime(data.hourly.dateTime[i]).Some? ==> HourlyCovers(data.hourly, i + 1)
  }

  /** `weather_lookup`. */
  function WeatherLookup(p: Parsers, data: OpenMeteoResponse, q: WeatherQuery): (r: Option<Weather>)
    requires LookupInBounds(p, data, q)
    ensures LookupIndex(p, data, q).None? ==> r.None?
    ensures q.Hourly? && r.Some? ==> r.value.dateTime == q.dateTime
  {
    match q
    case Daily(date) =>
      (match FirstIndex(data.daily.date, DayIs(p, date))
       case None => None
       case Some(i) =>
         var code := data.daily.weatherCode[i];
         var temp := data.daily.temperature2mMax[i];
         var precip := data.daily.precipitationProbabilityMax[i];
         var apparent := data.daily.apparentTemperatureMax[i];
         match p.dateTimeOfDay(data.daily.date[i])
         case None => None
         case Some(dt) => Some(Weather(code, precip, temp, apparent, dt)))
    case Hourly(dateTime) =>
      match FirstIndex(data.hourly.dateTime, HourIs(p, dateTime))
      case None => None
      case Some(i) =>
        match p.dateTime(data.hourly.dateTime[i])
        case None => None
        case Some(dt) =>
          Some(Weather(
            weatherCode := data.hourly.weatherCode[i],
            temp := data.hourly.temperature2m[i],
            precip := data.hourly.precipitationProbability[i],
            apparentTemp := data.hourly.apparentTemperature[i],
            dateTime := dt))
  }

  /**
   * A daily lookup answers with the first matching day's maxima, and is `None` exactly when
   * no day matches or that day's string fails the date-time parse.
   */
  lemma DailyLookupFields(p: Parsers, data: OpenMeteoResponse, date: Date)
    requires LookupInBounds(p, data, Daily(date))
    ensures var r := WeatherLookup(p, data, Daily(date));
      var idx := LookupIndex(p, data, Daily(date));
      && (r.None? <==> idx.None? || p.dateTimeOfDay(data.daily.date[idx.value]).None?)
      && (r.Some? ==>
        && p.date(data.daily.date[idx.value]).UnwrapOr(DefaultDate) == date
        && r.value == Weather(
          data.daily.weatherCode[idx.value], data.daily.precipitationProbabilityMax[idx.value],
          data.daily.temperature2mMax[idx.value], data.daily.apparentTemperatureMax[idx.value],
          p.dateTimeOfDay(data.daily.date[idx.value]).value))
  {
  }

  /** An hourly lookup that answers copies the first matching hour, like the projection does. */
  lemma HourlyLookupFields(p: Parsers, data: OpenMeteoResponse, dateTime: DateTime)
    requires LookupInBounds(p, data, Hourly(dateTime))
    ensures var r := WeatherLookup(p, data, Hourly(dateTime));
      var idx := LookupIndex(p, data, Hourly(dateTime));
      && (r.None? <==> idx.None? || p.dateTime(data.hourly.dateTime[idx.value]).None?)
      && (r.Some? ==> r.value == HourlyEntry(p, data.hourly, idx.value))
  {
  }

  /**
   * Projection and lookup agree: when every timestamp parses and no two parse to the same
   * instant, looking up the k-th projected hour by its time gives back that record.
   */
  lemma LookupAgreesWithProjection(p: Parsers, data: OpenMeteoResponse, date: Date, k: nat)
    requires forall i :: 0 <= i < |data.hourly.dateTime| ==> p.dateTime(data.hourly.dateTime[i]).Some?
    requires forall i, j :: 0 <= i < j < |data.hourly.dateTime| ==>
      p.dateTime(data.hourly.dateTime[i]) != p.dateTime(data.hourly.dateTime[j])
    requires HourlyCovers(data.hourly, StartIndex(p, data.hourly, date) + 24)
    requires k < 24
    ensures var w := HourlyEntry(p, data.hourly, StartIndex(p, data.hourly, date) + k);
      LookupInBounds(p, data, Hourly(w.dateTime)) && WeatherLookup(p, data, Hourly(w.dateTime)) == Some(w)
  {
    var h := data.hourly;
    var i := StartIndex(p, h, date) + k;
    var w := HourlyEntry(p, h, i);
    forall j | 0 <= j < |h.dateTime| && j != i
      ensures !HourIs(p, w.dateTime)(h.dateTime[j])
    {
      if j < i {
        assert p.dateTime(h.dateTime[j]) != p.dateTime(h.dateTime[i]);
      } else {
        assert p.dateTime(h.dateTime[i]) != p.dateTime(h.dateTime[j]);
      }
    }
    FirstIndexOfUnique(h.dateTime, HourIs(p, w.dateTime), i);
  }

  /**
   * The weather codes the table knows: WMO code table 4677 (WMO Manual on Codes, WMO-No. 306)
   * as reduced by Open-Meteo.
   */
  const KnownCodes: set<u16> := {0, 1, 2, 3, 45, 48, 51, 53, 55, 56, 57, 61, 63, 65, 66, 67, 71, 73, 75, 77, 80, 81, 82, 85, 86, 95, 96, 99}

  /** What every other code shows. */
  const UnknownDescription := ("Unknown", "\U{2753}")

  /** `get_weather_description`: a description and an emoji for a weather code. */
  function GetWeatherDescription(code: u16): (r: (string, string))
    ensures r == UnknownDescription <==> code !in KnownCodes
  {
    match code
    case 0 => ("Clear sky", "\U{2600}\U{FE0F}")
    case 1 => ("Mainly clear", "\U{1F324}\U{FE0F}")
    case 2 => ("Partly cloudy", "\U{26C5}")
    case 3 => ("Overcast", "\U{2601}\U{FE0F}")
    case 45 => ("Fog", "\U{1F32B}\U{FE0F}")
    case 48 => ("Depositing rime fog", "\U{1F32B}\U{FE0F}\U{2744}\U{FE0F}")
    case 51 => ("Light drizzle", "\U{1F326}\U{FE0F}")
    case 53 => ("Moderate drizzle", "\U{1F327}\U{FE0F}")
    case 55 => ("Dense drizzle", "\U{1F327}\U{FE0F}")
    case 56 => ("Light freezing drizzle", "\U{1F327}\U{FE0F}\U{2744}\U{FE0F}")
    case 57 => ("Dense freezing drizzle", "\U{1F327}\U{FE0F}\U{2744}\U{FE0F}")
    case 61 => ("Slight rain", "\U{1F326}\U{FE0F}")
    case 63 => ("Moderate rain", "\U{1F327}\U{FE0F}")
    case 65 => ("Heavy rain", "\U{1F327}\U{FE0F}\U{1F327}\U{FE0F}")
    case 66 => ("Light freezing rain", "\U{1F327}\U{FE0F}\U{2744}\U{FE0F}")
    case 67 => ("Heavy freezing rain", "\U{1F327}\U{FE0F}\U{2744}\U{FE0F}\U{2744}\U{FE0F}")
    case 71 => ("Slight snow fall", "\U{1F328}\U{FE0F}")
    case 73 => ("Moderate snow fall", "\U{1F328}\U{FE0F}\U{2744}\U{FE0F}")
    case 75 => ("Heavy snow fall", "\U{2744}\U{FE0F}\U{2744}\U{FE0F}")
    case 77 => ("Snow grains", "\U{1F328}\U{FE0F}\U{1F9C2}")
    case 80 => ("Slight rain showers", "\U{1F326}\U{FE0F}")
    case 81 => ("Moderate rain showers", "\U{1F327}\U{FE0F}")
    case 82 => ("Violent rain showers", "\U{26C8}\U{FE0F}")
    case 85 => ("Slight snow showers", "\U{1F328}\U{FE0F}")
    case 86 => ("Heavy snow showers", "\U{2744}\U{FE0F}\U{2744}\U{FE0F}")
    case 95 => ("Thunderstorm", "\U{1F329}\U{FE0F}")
    case 96 => ("Thunderstorm w/ hail", "\U{26C8}\U{FE0F}\U{1F9CA}")
    case 99 => ("Heavy TS w/ hail", "\U{26C8}\U{FE0F}\U{1F9CA}\U{1F9CA}")
    case _ => UnknownDescription
  }

  /** The code a known description stands for: the table read backwards. */
  function CodeOfDescription(description: string): (r: Option<u16>)
  {
    // Each test compares lengths first, so a mismatch is settled without comparing characters.
    if |description| == 9 && description == "Clear sky" then Some(0)
    else if |description| == 12 && description == "Mainly clear" then Some(1)
    else if |description| == 13 && description == "Partly cloudy" then Some(2)
    else if |description| == 8 && description == "Overcast" then Some(3)
    else if |description| == 3 && description == "Fog" then Some(45)
    else if |description| == 19 && description == "Depositing rime fog" then Some(48)
    else if |description| == 13 && description == "Light drizzle" then Some(51)
    else if |description| == 16 && description == "Moderate drizzle" then Some(53)
    else if |description| == 13 && description == "Dense drizzle" then Some(55)
    else if |description| == 22 && description == "Light freezing drizzle" then Some(56)
    else if |description| == 22 && description == "Dense freezing drizzle" then Some(57)
    else if |description| == 11 && description == "Slight rain" then Some(61)
    else if |description| == 13 && description == "Moderate rain" then Some(63)
    else if |description| == 10 && description == "Heavy rain" then Some(65)
    else if |description| == 19 && description == "Light freezing rain" then Some(66)
    else if |description| == 19 && description == "Heavy freezing rain" then Some(67)
    else if |description| == 16 && description == "Slight snow fall" then Some(71)
    else if |description| == 18 && description == "Moderate snow fall" then Some(73)
    else if |description| == 15 && description == "Heavy snow fall" then Some(75)
    else if |description| == 11 && description == "Snow grains" then Some(77)
    else if |description| == 19 && description == "Slight rain showers" then Some(80)
    else if |description| == 21 && description == "Moderate rain showers" then Some(81)
    else if |description| == 20 && description == "Violent rain showers" then Some(82)
    else if |description| == 19 && description == "Slight snow showers" then Some(85)
    else if |description| == 18 && description == "Heavy snow showers" then Some(86)
    else if |description| == 12 && description == "Thunderstorm" then Some(95)
    else if |description| == 20 && description == "Thunderstorm w/ hail" then Some(96)
    else if |description| == 16 && description == "Heavy TS w/ hail" then Some(99)
    else None
  }

  /**
   * Reading the table backwards recovers the code: distinct known codes have distinct
   * descriptions. Proved one WMO group at a time.
   */
  lemma DescriptionDeterminesCode(code: u16)
    requires code in KnownCodes
    ensures CodeOfDescription(GetWeatherDescription(code).0) == Some(code)
  {
    if code in {0, 1, 2, 3} {
      SkyRoundTrip(code);
    } else if code in {45, 48} {
      FogRoundTrip(code);
    } else if code in {51, 53, 55, 56, 57} {
      DrizzleRoundTrip(code);
    } else if code in {61, 63, 65, 66, 67} {
      RainRoundTrip(code);
    } else if code in {71, 73, 75, 77} {
      SnowRoundTrip(code);
    } else if code in {80, 81, 82, 85, 86} {
      ShowersRoundTrip(code);
    } else if code in {95, 96, 99} {
      ThunderstormRoundTrip(code);
    }
  }

  /** The round trip for the codes of clear sky and cloud cover. */
  lemma SkyRoundTrip(code: u16)
    requires code in {0, 1, 2, 3}
    ensures CodeOfDescription(GetWeatherDescription(code).0) == Some(code)
  {
    if code == 0 {
      assert CodeOfDescription("Clear sky") == Some(0);
    } else if code == 1 {
      assert CodeOfDescription("Mainly clear") == Some(1);
    } else if code == 2 {
      assert CodeOfDescription("Partly cloudy") == Some(2);
    } else if code == 3 {
      assert CodeOfDescription("Overcast") == Some(3);
    }
  }

  /** The round trip for the codes of fog. */
  lemma FogRoundTrip(code: u16)
    requires code in {45, 48}
    ensures CodeOfDescription(GetWeatherDescription(code).0) == Some(code)
  {
    if code == 45 {
      assert CodeOfDescription("Fog") == Some(45);
    } else if code == 48 {
      assert CodeOfDescription("Depositing rime fog") == Some(48);
    }
  }

  /** The round trip for the codes of drizzle. */
  lemma DrizzleRoundTrip(code: u16)
    requires code in {51, 53, 55, 56, 57}
    ensures CodeOfDescription(GetWeatherDescription(code).0) == Some(code)
  {
    if code == 51 {
      assert CodeOfDescription("Light drizzle") == Some(51);
    } else if code == 53 {
      assert CodeOfDescription("Moderate drizzle") == Some(53);
    } else if code == 55 {
      assert CodeOfDescription("Dense drizzle") == Some(55);
    } else if code == 56 {
      assert CodeOfDescription("Light freezing drizzle") == Some(56);
    } else if code == 57 {
      assert CodeOfDescription("Dense freezing drizzle") == Some(57);
    }
  }

  /** The round trip for the codes of rain. */
  lemma RainRoundTrip(code: u16)
    requires code in {61, 63, 65, 66, 67}
    ensures CodeOfDescription(GetWeatherDescription(code).0) == Some(code)
  {
    if code == 61 {
      assert CodeOfDescription("Slight rain") == Some(61);
    } else if code == 63 {
      assert CodeOfDescription("Moderate rain") == Some(63);
    } else if code == 65 {
      assert CodeOfDescription("Heavy rain") == Some(65);
    } else if code == 66 {
      assert CodeOfDescription("Light freezing rain") == Some(66);
    } else if code == 67 {
      assert CodeOfDescription("Heavy freezing rain") == Some(67);
    }
  }

  /** The round trip for the codes of snow fall and snow grains. */
  lemma SnowRoundTrip(code: u16)
    requires code in {71, 73, 75, 77}
    ensures CodeOfDescription(GetWeatherDescription(code).0) == Some(code)
  {
    if code == 71 {
      assert CodeOfDescription("Slight snow fall") == Some(71);
    } else if code == 73 {
      assert CodeOfDescription("Moderate snow fall") == Some(73);
    } else if code == 75 {
      assert CodeOfDescription("Heavy snow fall") == Some(75);
    } else if code == 77 {
      assert CodeOfDescription("Snow grains") == Some(77);
    }
  }

  /** The round trip for the codes of rain and snow showers. */
  lemma ShowersRoundTrip(code: u16)
    requires code in {80, 81, 82, 85, 86}
    ensures CodeOfDescription(GetWeatherDescription(code).0) == Some(code)
  {
    if code == 80 {
      assert CodeOfDescription("Slight rain showers") == Some(80);
    } else if code == 81 {
      assert CodeOfDescription("Moderate rain showers") == Some(81);
    } else if code == 82 {
      assert CodeOfDescription("Violent rain showers") == Some(82);
    } else if code == 85 {
      assert CodeOfDescription("Slight snow showers") == Some(85);
    } else if code == 86 {
      assert CodeOfDescription("Heavy snow showers") == Some(86);
    }
  }

  /** The round trip for the codes of thunderstorms. */
  lemma ThunderstormRoundTrip(code: u16)
    requires code in {95, 96, 99}
    ensures CodeOfDescription(GetWeatherDescription(code).0) == Some(code)
  {
    if code == 95 {
      assert CodeOfDescription("Thunderstorm") == Some(95);
    } else if code == 96 {
      assert CodeOfDescription("Thunderstorm w/ hail") == Some(96);
    } else if code == 99 {
      assert CodeOfDescription("Heavy TS w/ hail") == Some(99);
    }
  }
}
