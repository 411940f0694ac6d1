/**
 * The notification throttle: the send/no-send decision `checkLog`, and the
 * two rewrites of the log record, `updateLog` (touch) and `resetLog` (mark sent).
 */
module Throttle {

  import opened Wrappers
  import opened Calendar
  import opened DateText
  import opened Text
  import opened LogRecord

  /** Minimum whole days between two notifications. */
  const DaysUntilNextNotification: int := 5

  const SentFlag: string := "true"
  const NotSentFlag: string := "false"
  /** What the `dateSent` field holds before any message was sent. */
  const NeverSent: string := "-1"

  /** What `checkLog` returns: `True`, `False`, or the `None` of falling off its end. */
  datatype Answer = Yes | No | NoAnswer

  /** `if shouldSendMessage:`: only `True` sends; `None` is falsy. */
  predicate ShouldSend(a: Answer)
  {
    a == Yes
  }

  /**
   * The decision `checkLog` takes on a record it has read. It falls through
   * (returns `None`) exactly when the flag is neither `"false"` nor `"true"`,
   * and only a `"true"` record can stop the run, on a date that does not parse.
   */
  function Decide(r: Record): (res: Result<Answer, Fault>)
    ensures res == Ok(NoAnswer) <==> r.flag != NotSentFlag && r.flag != SentFlag
    ensures res.Err? ==> res.error == BadDate && r.flag == SentFlag
  {
    if r.flag == NotSentFlag then Ok(Yes)
    else if r.flag == SentFlag then
      match (ParseDate(r.sent), ParseDate(r.updated))
      case (Some(sent), Some(updated)) =>
        if CompareDates(sent, updated) >= DaysUntilNextNotification then Ok(Yes) else Ok(No)
      case _ => Err(BadDate)
    else Ok(NoAnswer)
  }

  /** `checkLog`: read the log file and decide; a missing file stops the run. */
  function CheckLog(log: Option<string>): (res: Result<Answer, Fault>)
    ensures log.None? ==> res == Err(LogMissing)
  {
    match log
    case None => Err(LogMissing)
    case Some(content) =>
      match ParseLog(content)
      case Err(e) => Err(e)
      case Ok(r) => Decide(r)
  }

  /** The record written when the log cannot be opened: `today,false,-1`. */
  function DefaultRecord(today: Date): Record
    requires Valid(today)
  {
    Record(FormatDate(today), NotSentFlag, NeverSent)
  }

  /** The record `resetLog` writes after a message was sent: `today,true,today`. */
  function MarkedSent(today: Date): Record
    requires Valid(today)
  {
    Record(FormatDate(today), SentFlag, FormatDate(today))
  }

  /** The record `updateLog` writes over an existing one: field 0 becomes today. */
  function Touched(r: Record, today: Date): Record
    requires Valid(today)
  {
    r.(updated := FormatDate(today))
  }

  /**
   * The new text of the log after `updateLog(today)`, or the exception it
   * stops with: only an existing log that cannot be read stops it, with the
   * reading error.
   */
  function AfterUpdate(log: Option<string>, today: Date): (r: Result<string, Fault>)
    requires Valid(today)
    ensures r.Err? <==> log.Some? && ParseLog(log.value).Err?
    ensures r.Err? ==> r.error == ParseLog(log.value).error
  {
    match log
    case None => Ok(Format(DefaultRecord(today)))
    case Some(content) =>
      match ParseLog(content)
      case Err(e) => Err(e)
      case Ok(r) => Ok(Format(Touched(r, today)))
  }

  /**
   * The new text of the log after `resetLog(today)`: it reads `today,true,today`,
   * or `today,false,-1` when there was no file to reopen.
   */
  function AfterReset(log: Option<string>, today: Date): (text: string)
    requires Valid(today)
    ensures ParseLog(text) == Ok(if log.Some? then MarkedSent(today) else DefaultRecord(today))
  {
    FormattedDateIsStorable(today);
    if log.None? then
      FormatParse(DefaultRecord(today));
      Format(DefaultRecord(today))
    else
      FormatParse(MarkedSent(today));
      Format(MarkedSent(today))
  }

  /**
   * The record invariant: the last update is a date, and either nothing was
   * sent (`false,-1`) or the flag is `true` and the date sent is a date.
   */
  predicate WellFormed(r: Record)
  {
    ParseDate(r.updated).Some?
    && ((r.flag == NotSentFlag && r.sent == NeverSent) || (r.flag == SentFlag && ParseDate(r.sent).Some?))
  }

  /** The invariant of the log file: absent, or holding a well-formed record. */
  predicate LogInvariant(log: Option<string>)
  {
    log.Some? ==> ParseLog(log.value).Ok? && WellFormed(ParseLog(log.value).value)
  }

  lemma FormattedDateIsStorable(d: Date)
    requires Valid(d)
    ensures Comma !in FormatDate(d) && Newline !in FormatDate(d)
  {
  }

  lemma WellFormedIsStorable(r: Record)
    requires WellFormed(r)
    ensures Storable(r)
  {
    ParsedDateChars(r.updated);
    if r.flag == SentFlag {
      ParsedDateChars(r.sent);
    }
  }

  /** Each record the program writes satisfies the record invariant. */
  lemma TransitionsKeepWellFormed(r: Record, today: Date)
    requires Valid(today)
    ensures WellFormed(DefaultRecord(today))
    ensures WellFormed(MarkedSent(today))
    ensures WellFormed(r) ==> WellFormed(Touched(r, today))
  {
  }

  /** The invariant keeps `compareDates` away from `-1`: `checkLog` neither stops nor falls through. */
  lemma WellFormedDecides(r: Record)
    requires WellFormed(r)
    ensures Decide(r).Ok? && Decide(r).value != NoAnswer
  {
  }

  /** `updateLog` on a readable log rewrites field 0 to today and keeps the flag and date sent verbatim. */
  lemma UpdateKeepsOtherFields(content: string, today: Date)
    requires Valid(today) && ParseLog(content).Ok?
    ensures AfterUpdate(Some(content), today).Ok?
    ensures var r := ParseLog(content).value;
      ParseLog(AfterUpdate(Some(content), today).value) == Ok(Record(FormatDate(today), r.flag, r.sent))
  {
    var r := ParseLog(content).value;
    ParsedIsStorable(content, r);
    FormattedDateIsStorable(today);
    FormatParse(Touched(r, today));
  }

  /** `updateLog` with no log file creates one holding `today,false,-1`. */
  lemma UpdateCreatesDefault(today: Date)
    requires Valid(today)
    ensures AfterUpdate(None, today).Ok?
    ensures ParseLog(AfterUpdate(None, today).value) == Ok(DefaultRecord(today))
  {
    FormattedDateIsStorable(today);
    FormatParse(DefaultRecord(today));
  }

  /** Both rewrites preserve the log invariant. */
  lemma RewritesKeepInvariant(log: Option<string>, today: Date)
    requires Valid(today) && LogInvariant(log)
    ensures AfterUpdate(log, today).Ok? && LogInvariant(Some(AfterUpdate(log, today).value))
    ensures LogInvariant(Some(AfterReset(log, today)))
  {
    TransitionsKeepWellFormed(if log.Some? then ParseLog(log.value).value else DefaultRecord(today), today);
    if log.Some? {
      UpdateKeepsOtherFields(log.value, today);
    } else {
      UpdateCreatesDefault(today);
    }
  }

  /** A log under the invariant always yields a yes-or-no answer from `checkLog`. */
  lemma InvariantLogDecides(log: Option<string>)
    requires LogInvariant(log) && log.Some?
    ensures CheckLog(log).Ok? && CheckLog(log).value != NoAnswer
  {
    WellFormedDecides(ParseLog(log.value).value);
  }

  /** A record with flag `"false"` sends, whatever its dates say. */
  lemma NotSentAlwaysSends(content: string)
    requires ParseLog(content).Ok? && ParseLog(content).value.flag == NotSentFlag
    ensures CheckLog(Some(content)) == Ok(Yes)
  {
  }

  /**
   * The cooldown boundary on a written log: a message marked sent on `sent`
   * and touched on `today` may be sent again exactly when at least five whole
   * days separate the two.
   */
  lemma CooldownBoundary(sent: Date, today: Date)
    requires Valid(sent) && Valid(today)
    ensures CheckLog(Some(Format(Touched(MarkedSent(sent), today))))
      == Ok(if DayNumber(today) - DayNumber(sent) >= DaysUntilNextNotification then Yes else No)
  {
    FormattedDateIsStorable(sent);
    FormattedDateIsStorable(today);
    FormatParse(Touched(MarkedSent(sent), today));
    ParseFormatDate(sent);
    ParseFormatDate(today);
  }

  /** On the day a message was marked sent, `checkLog` says no. */
  lemma HoldsOnResetDay(content: string, d: Date)
    requires Valid(d)
    ensures CheckLog(Some(AfterReset(Some(content), d))) == Ok(No)
  {
    ParseFormatDate(d);
  }

  /**
   * After `resetLog(d)` and an `updateLog` `n` calendar days later,
   * `checkLog` says yes exactly when `n` is at least five.
   */
  lemma CooldownAfterReset(content: string, d: Date, n: nat)
    requires Valid(d) && AddDays(d, n).Some?
    ensures var touched := AfterUpdate(Some(AfterReset(Some(content), d)), AddDays(d, n).value);
      touched.Ok? && CheckLog(Some(touched.value)) == Ok(if n >= DaysUntilNextNotification then Yes else No)
  {
    var t := AddDays(d, n).value;
    UpdateKeepsOtherFields(AfterReset(Some(content), d), t);
    assert Touched(MarkedSent(d), t) == Record(FormatDate(t), SentFlag, FormatDate(d));
    CooldownBoundary(d, t);
    AddDaysDistance(d, n);
  }

  /** Sent 2024-01-01: a touch on 2024-01-06 sends again, one on 2024-01-05 does not. */
  lemma CooldownExample()
    ensures CheckLog(Some(Format(Record("2024-01-06", SentFlag, "2024-01-01")))) == Ok(Yes)
    ensures CheckLog(Some(Format(Record("2024-01-05", SentFlag, "2024-01-01")))) == Ok(No)
  {
    var sent := Date(2024, 1, 1);
    assert FormatDate(sent) == "2024-01-01";
    assert FormatDate(Date(2024, 1, 6)) == "2024-01-06";
    assert FormatDate(Date(2024, 1, 5)) == "2024-01-05";
    CooldownBoundary(sent, Date(2024, 1, 6));
    CooldownBoundary(sent, Date(2024, 1, 5));
  }
}
