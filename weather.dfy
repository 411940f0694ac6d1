/**
 * `checkWeather`: an inclusive range test on the last forecast's wind and
 * temperature, and the choice of message. Whether any message goes out is
 * decided by `checkLog` alone.
 */
module Weather {

  import opened Wrappers
  import opened LogRecord
  import opened Throttle

  /** The wind speed and temperature of one forecast in the list. */
  datatype Forecast = Forecast(wind: real, temp: real)

  /** The thresholds read from the preferences. */
  datatype Preferences = Preferences(windPrefMin: real, windPrefMax: real, tempPrefMin: real, tempPrefMax: real)

  /** The good-weather text of `formatText`, or the bad-weather text. */
  datatype Message = GoodWeather | BadWeather

  /** `x >= lo and x <= hi`. */
  predicate WithinRange(x: real, lo: real, hi: real)
  {
    x >= lo && x <= hi
  }

  /** `windOkay and tempOkay`; no forecast passes an empty range. */
  predicate WeatherOkay(f: Forecast, p: Preferences)
    ensures WeatherOkay(f, p) ==> p.windPrefMin <= p.windPrefMax && p.tempPrefMin <= p.tempPrefMax
  {
    WithinRange(f.wind, p.windPrefMin, p.windPrefMax) && WithinRange(f.temp, p.tempPrefMin, p.tempPrefMax)
  }

  /**
   * `checkWeather` on the forecast list: the message sent, if any, or the
   * exception the run stops with. An empty list stops it before the log is
   * read. Otherwise a message goes out exactly when `checkLog` says yes, and
   * it is the good-weather one exactly when the last forecast is within the
   * thresholds.
   */
  function CheckWeather(forecasts: seq<Forecast>, p: Preferences, log: Option<string>): (r: Result<Option<Message>, Fault>)
    ensures forecasts == [] ==> r == Err(NoForecast)
    ensures forecasts != [] && CheckLog(log).Err? ==> r == Err(CheckLog(log).error)
    ensures forecasts != [] && CheckLog(log).Ok? ==> r.Ok? && (r.value.Some? <==> ShouldSend(CheckLog(log).value))
    ensures r.Ok? && r.value.Some? ==> (r.value.value == GoodWeather <==> WeatherOkay(forecasts[|forecasts| - 1], p))
  {
    if forecasts == [] then Err(NoForecast)
    else
      var last := forecasts[|forecasts| - 1];
      match CheckLog(log)
      case Err(e) => Err(e)
      case Ok(answer) =>
        if !ShouldSend(answer) then Ok(None)
        else if WeatherOkay(last, p) then Ok(Some(GoodWeather))
        else Ok(Some(BadWeather))
  }

  /** Both ends of each threshold are inside the accepted range. */
  lemma ThresholdsInclusive(lo: real, hi: real, x: real)
    requires lo <= hi
    ensures WithinRange(lo, lo, hi) && WithinRange(hi, lo, hi)
    ensures WithinRange(x, lo, hi) <==> lo <= x <= hi
  {
  }

  /** Whether a message is sent does not depend on the forecasts or the thresholds. */
  lemma SendingIgnoresWeather(f1: seq<Forecast>, p1: Preferences, f2: seq<Forecast>, p2: Preferences, log: Option<string>)
    requires f1 != [] && f2 != []
    ensures CheckWeather(f1, p1, log).Ok? <==> CheckWeather(f2, p2, log).Ok?
    ensures CheckWeather(f1, p1, log).Ok? ==>
      (CheckWeather(f1, p1, log).value.Some? <==> CheckWeather(f2, p2, log).value.Some?)
  {
  }
}
