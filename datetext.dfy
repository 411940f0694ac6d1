/**
 * Dates as text. `FormatDate` is Python's `str(date)` (ISO `YYYY-MM-DD`,
 * zero-padded); `ParseDate` is `datetime.strptime(s, "%Y-%m-%d")`, whose
 * pattern takes exactly four digits for the year, a month written `1`-`9`,
 * `01`-`09` or `10`-`12`, a day written `1`-`9`, `01`-`09`, ` 1`-` 9`,
 * `10`-`29`, `30` or `31`, and nothing after the day; a year 0 or a day
 * the month does not have is rejected.
 */
module DateText {

  import opened Wrappers
  import opened Calendar
  import opened Text

  predicate IsDigit(c: char)
  {
    '0' <= c <= '9'
  }

  function DigitValue(c: char): (n: int)
    requires IsDigit(c)
    ensures 0 <= n <= 9
  {
    c as int - '0' as int
  }

  function DigitChar(n: int): (c: char)
    requires 0 <= n <= 9
    ensures IsDigit(c) && DigitValue(c) == n
  {
    ('0' as int + n) as char
  }

  function Pad2(n: int): string
    requires 0 <= n <= 99
  {
    [DigitChar(n / 10), DigitChar(n % 10)]
  }

  function Pad4(n: int): string
    requires 0 <= n <= 9999
  {
    [DigitChar(n / 10 / 10 / 10), DigitChar(n / 10 / 10 % 10), DigitChar(n / 10 % 10), DigitChar(n % 10)]
  }

  /** `str(d)` for a Python `date`: `YYYY-MM-DD`. */
  function FormatDate(d: Date): (s: string)
    requires Valid(d)
    ensures |s| == 10 && s[4] == '-' && s[7] == '-'
    ensures forall i :: 0 <= i < |s| && i != 4 && i != 7 ==> IsDigit(s[i])
  {
    Pad4(d.year) + "-" + Pad2(d.month) + "-" + Pad2(d.day)
  }

  /** The month alternatives of `%m`: `1[0-2]|0[1-9]|[1-9]`. */
  function MonthField(t: string): (m: Option<int>)
    ensures m.Some? ==> 1 <= m.value <= 12
  {
    if |t| == 2 && t[0] == '1' && '0' <= t[1] <= '2' then Some(10 + DigitValue(t[1]))
    else if |t| == 2 && t[0] == '0' && '1' <= t[1] <= '9' then Some(DigitValue(t[1]))
    else if |t| == 1 && '1' <= t[0] <= '9' then Some(DigitValue(t[0]))
    else None
  }

  /** The day alternatives of `%d`: `3[01]|[12]\d|0[1-9]|[1-9]| [1-9]`, which must end the text. */
  function DayField(t: string): (d: Option<int>)
    ensures d.Some? ==> 1 <= d.value <= 31
  {
    if |t| == 2 && t[0] == '3' && '0' <= t[1] <= '1' then Some(30 + DigitValue(t[1]))
    else if |t| == 2 && '1' <= t[0] <= '2' && IsDigit(t[1]) then Some(10 * DigitValue(t[0]) + DigitValue(t[1]))
    else if |t| == 2 && (t[0] == '0' || t[0] == ' ') && '1' <= t[1] <= '9' then Some(DigitValue(t[1]))
    else if |t| == 1 && '1' <= t[0] <= '9' then Some(DigitValue(t[0]))
    else None
  }

  /**
   * `datetime.strptime(s, "%Y-%m-%d")`: `None` where Python raises `ValueError`.
   * The month field reaches up to the first `-` after the year, since the
   * month alternatives hold digits only.
   */
  function ParseDate(s: string): (r: Option<Date>)
    ensures r.Some? ==> Valid(r.value)
  {
    if |s| < 5 || !(IsDigit(s[0]) && IsDigit(s[1]) && IsDigit(s[2]) && IsDigit(s[3])) || s[4] != '-' then None
    else
      var year := 1000 * DigitValue(s[0]) + 100 * DigitValue(s[1]) + 10 * DigitValue(s[2]) + DigitValue(s[3]);
      var rest := s[5..];
      if '-' !in rest then None
      else
        var k := IndexOf(rest, '-');
        match (MonthField(rest[..k]), DayField(rest[k + 1..]))
        case (Some(m), Some(day)) =>
          var d := Date(year, m, day);
          if Valid(d) then Some(d) else None
        case _ => None
  }

  /** Characters that can occur in text `ParseDate` accepts. */
  predicate DateChar(c: char)
  {
    IsDigit(c) || c == '-' || c == ' '
  }

  /** Parsing the text Python writes for a date gives the date back. */
  lemma ParseFormatDate(d: Date)
    requires Valid(d)
    ensures ParseDate(FormatDate(d)) == Some(d)
  {
  }

  /** Text `ParseDate` accepts holds only digits, dashes and spaces: never a comma or a newline. */
  lemma ParsedDateChars(s: string)
    requires ParseDate(s).Some?
    ensures forall i :: 0 <= i < |s| ==> DateChar(s[i])
  {
  }

  /** `strptime` also takes the unpadded and space-padded forms. */
  lemma UnpaddedDateExample()
    ensures ParseDate("2024-1-6") == Some(Date(2024, 1, 6))
  {
  }

  lemma SpacePaddedDateExample()
    ensures ParseDate("2024-01- 6") == Some(Date(2024, 1, 6))
  {
  }

  /** A day the month does not have is rejected, as is text after the day. */
  lemma RejectedDateExample()
    ensures ParseDate("2023-02-29") == None
    ensures ParseDate("2024-01-06\n") == None
  {
  }
}
