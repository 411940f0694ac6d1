/**
 * One run of the program (`main`): touch the log, then check the weather
 * and, when `checkLog` allows, send a message and mark it sent. The log
 * file is a `LogFile` object whose methods rewrite it in place.
 *
 * `sendMessage` ends the process with `sys.exit` on every path, so the
 * `resetLog()` written after it is never reached: `RunAsWritten` is that
 * behaviour and `RunIntended` the one the code is evidently written for.
 */
module Alert {

  import opened Wrappers
  import opened Calendar
  import opened LogRecord
  import opened Throttle
  import opened Weather

  /** The log file after a run, the message sent (if any), and the exception the run stopped with (if any). */
  datatype RunResult = RunResult(log: Option<string>, sent: Option<Message>, fault: Option<Fault>)

  /**
   * `main` as written: after a message is dispatched the process exits, so
   * the log is left as `updateLog` made it, whether or not a message went out.
   */
  function RunAsWritten(log: Option<string>, today: Date, forecasts: seq<Forecast>, p: Preferences): (r: RunResult)
    requires Valid(today)
    ensures AfterUpdate(log, today).Err? ==> r == RunResult(log, None, Some(AfterUpdate(log, today).error))
    ensures AfterUpdate(log, today).Ok? ==> r.log == Some(AfterUpdate(log, today).value)
    ensures r.sent.Some? ==> r.fault.None?
  {
    match AfterUpdate(log, today)
    case Err(e) => RunResult(log, None, Some(e))
    case Ok(touched) =>
      match CheckWeather(forecasts, p, Some(touched))
      case Err(e) => RunResult(Some(touched), None, Some(e))
      case Ok(m) => RunResult(Some(touched), m, None)
  }

  /**
   * `main` as intended: a dispatched message is followed by `resetLog`, so
   * after a send the log reads `today,true,today`; a run that sends nothing
   * leaves the log as `updateLog` made it.
   */
  function RunIntended(log: Option<string>, today: Date, forecasts: seq<Forecast>, p: Preferences): (r: RunResult)
    requires Valid(today)
    ensures AfterUpdate(log, today).Err? ==> r == RunResult(log, None, Some(AfterUpdate(log, today).error))
    ensures r.sent.Some? ==> r.fault.None? && r.log.Some? && ParseLog(r.log.value) == Ok(MarkedSent(today))
    ensures r.sent.None? && AfterUpdate(log, today).Ok? ==> r.log == Some(AfterUpdate(log, today).value)
  {
    match AfterUpdate(log, today)
    case Err(e) => RunResult(log, None, Some(e))
    case Ok(touched) =>
      match CheckWeather(forecasts, p, Some(touched))
      case Err(e) => RunResult(Some(touched), None, Some(e))
      case Ok(None) => RunResult(Some(touched), None, None)
      case Ok(Some(m)) => RunResult(Some(AfterReset(Some(touched), today)), Some(m), None)
  }

  /** No message has been marked sent: no log yet, or a record whose flag is `"false"`. */
  predicate NeverMarked(log: Option<string>)
  {
    log.Some? ==> ParseLog(log.value).Ok? && ParseLog(log.value).value.flag == NotSentFlag
  }

  /**
   * As written, the throttle never engages: from a log that never recorded
   * a send, every run sends a message and leaves the flag at `"false"`, so
   * the next run (the same day included) sends again.
   */
  lemma AsWrittenSendsEveryRun(log: Option<string>, today: Date, forecasts: seq<Forecast>, p: Preferences)
    requires Valid(today) && NeverMarked(log) && forecasts != []
    ensures RunAsWritten(log, today, forecasts, p).sent.Some?
    ensures RunAsWritten(log, today, forecasts, p).fault.None?
    ensures NeverMarked(RunAsWritten(log, today, forecasts, p).log)
  {
    if log.Some? {
      UpdateKeepsOtherFields(log.value, today);
    } else {
      UpdateCreatesDefault(today);
    }
  }

  /** Two runs on the same day from a fresh install both send: the five-day cooldown is never applied. */
  lemma AsWrittenSameDayTwice(today: Date, f1: seq<Forecast>, p1: Preferences, f2: seq<Forecast>, p2: Preferences)
    requires Valid(today) && f1 != [] && f2 != []
    ensures RunAsWritten(None, today, f1, p1).sent.Some?
    ensures RunAsWritten(RunAsWritten(None, today, f1, p1).log, today, f2, p2).sent.Some?
  {
    AsWrittenSendsEveryRun(None, today, f1, p1);
    AsWrittenSendsEveryRun(RunAsWritten(None, today, f1, p1).log, today, f2, p2);
  }

  /**
   * As intended, a run that sends on day `d` is followed by silence: a run
   * `n` days later sends exactly when `n` is at least five, whatever the weather.
   */
  lemma IntendedThrottles(log: Option<string>, d: Date, n: nat, f1: seq<Forecast>, p1: Preferences, f2: seq<Forecast>, p2: Preferences)
    requires Valid(d) && AddDays(d, n).Some? && f2 != []
    requires RunIntended(log, d, f1, p1).sent.Some?
    ensures var next := RunIntended(RunIntended(log, d, f1, p1).log, AddDays(d, n).value, f2, p2);
      next.fault.None? && (next.sent.Some? <==> n >= DaysUntilNextNotification)
  {
    var touched := AfterUpdate(log, d).value;
    CooldownAfterReset(touched, d, n);
  }

  /** The file `log.txt`, rewritten in place by `updateLog` and `resetLog`. */
  class LogFile {

    /** The text of the file; `None` while it does not exist. */
    var contents: Option<string>

    constructor (initial: Option<string>)
      ensures contents == initial
    {
      contents := initial;
    }

    /**
     * `updateLog`: rewrite field 0 of the record to today, keeping the other
     * two; create `today,false,-1` when there is no file. A file that is
     * empty or has fewer than three fields stops the run and stays as it was.
     */
    method UpdateLog(today: Date) returns (fault: Option<Fault>)
      requires Valid(today)
      modifies this
      ensures fault.None? <==> AfterUpdate(old(contents), today).Ok?
      ensures fault.None? ==> contents == Some(AfterUpdate(old(contents), today).value)
      ensures fault.Some? ==> contents == old(contents) && AfterUpdate(old(contents), today) == Err(fault.value)
      ensures old(LogInvariant(contents)) ==> LogInvariant(contents)
    {
      ghost var before := contents;
      if LogInvariant(before) {
        RewritesKeepInvariant(before, today);
      }
      if contents.None? {
        contents := Some(Format(DefaultRecord(today)));
        return None;
      }
      var line := Text.FirstLine(contents.value);
      if line.None? {
        return Some(LogEmpty);
      }
      var rows := Text.Split(line.value);
      if |rows| < 3 {
        return Some(FieldMissing);
      }
      contents := Some(Format(Record(DateText.FormatDate(today), rows[1], rows[2])));
      fault := None;
    }

    /**
     * `resetLog`: overwrite the file with `today,true,today`; with no file to
     * reopen, create `today,false,-1` instead.
     */
    method ResetLog(today: Date)
      requires Valid(today)
      modifies this
      ensures contents == Some(AfterReset(old(contents), today))
      ensures old(LogInvariant(contents)) ==> LogInvariant(contents)
    {
      ghost var before := contents;
      if LogInvariant(before) {
        RewritesKeepInvariant(before, today);
      }
      if contents.Some? {
        contents := Some(Format(MarkedSent(today)));
      } else {
        contents := Some(Format(DefaultRecord(today)));
      }
    }

    /** One run of `main` as intended: touch the log, check the weather, and mark a dispatched message sent. */
    method Run(today: Date, forecasts: seq<Forecast>, p: Preferences) returns (sent: Option<Message>, fault: Option<Fault>)
      requires Valid(today)
      modifies this
      ensures RunResult(contents, sent, fault) == RunIntended(old(contents), today, forecasts, p)
      ensures old(LogInvariant(contents)) ==> LogInvariant(contents)
    {
      fault := UpdateLog(today);
      if fault.Some? {
        sent := None;
        return;
      }
      var decision := CheckWeather(forecasts, p, contents);
      if decision.Err? {
        sent, fault := None, Some(decision.error);
        return;
      }
      sent := decision.value;
      if sent.Some? {
        ResetLog(today);
      }
    }
  }
}
