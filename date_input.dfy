/// The weekday of the value of an `<input type="date">` ("YYYY-MM-DD"), read
/// the way the page reads it and the way it evidently means to read it.
///
/// A JavaScript time value counts milliseconds since 1970-01-01 00:00 UTC.
/// `getDay()` turns it into local time by adding the zone's offset, takes the
/// day number (rounding down) and returns `(day + 4) mod 7`, 0 being Sunday;
/// 1970-01-01 was a Thursday. Zone offsets are in minutes, local time minus
/// UTC, so they are negative west of Greenwich (-240 in Ontario in summer).
module DateInput {
  import opened Options
  import opened Availability

  datatype CivilDate = CivilDate(year: int, month: int, day: int)

  predicate IsLeapYear(y: int) {
    y % 4 == 0 && (y % 100 != 0 || y % 400 == 0)
  }

  function DaysInMonth(y: int, m: int): int
    requires 1 <= m <= 12
  {
    if m == 2 then (if IsLeapYear(y) then 29 else 28)
    else if m == 4 || m == 6 || m == 9 || m == 11 then 30
    else 31
  }

  predicate IsCivilDate(c: CivilDate) {
    1 <= c.month <= 12 && 1 <= c.day <= DaysInMonth(c.year, c.month)
  }

  /** Days from 1970-01-01 to `c` in the proleptic Gregorian calendar, counted
      by 400-year eras from 0000-03-01. */
  function DaysFromCivil(c: CivilDate): int {
    var y := if c.month <= 2 then c.year - 1 else c.year;
    var era := y / 400;
    var yearOfEra := y - era * 400;
    var monthFromMarch := (c.month + 9) % 12;
    var dayOfYear := (153 * monthFromMarch + 2) / 5 + c.day - 1;
    var dayOfEra := yearOfEra * 365 + yearOfEra / 4 - yearOfEra / 100 + dayOfYear;
    era * 146097 + dayOfEra - 719468
  }

  /** The weekday of a calendar day, 0 = Sunday. */
  function CalendarWeekday(c: CivilDate): Weekday {
    (DaysFromCivil(c) + 4) % 7
  }

  /** `getDay()` of time value `t` in a zone `offsetMinutes` from UTC; a day
      has 86400000 ms and a minute 60000. */
  function GetDay(t: int, offsetMinutes: int): Weekday {
    ((t + offsetMinutes * 60000) / 86400000 + 4) % 7
  }

  function FourDigits(n: nat): (s: string)
    requires n < 10000
    ensures |s| == 4 && AllDigits(s)
  {
    [DigitChar(n / 1000), DigitChar(n / 100 % 10), DigitChar(n / 10 % 10), DigitChar(n % 10)]
  }

  /** The value a date input holds for `c`. */
  function IsoDateString(c: CivilDate): string
    requires 0 <= c.year < 10000 && IsCivilDate(c)
  {
    FourDigits(c.year) + "-" + TwoDigits(c.month) + "-" + TwoDigits(c.day)
  }

  /** Reads "YYYY-MM-DD"; anything else, or a day the calendar does not have,
      is no date. */
  function ParseIsoDate(s: string): (r: Option<CivilDate>)
    ensures r.Some? ==> IsCivilDate(r.value) && 0 <= r.value.year < 10000
  {
    if |s| == 10 && s[4] == '-' && s[7] == '-'
       && AllDigits(s[..4]) && AllDigits(s[5..7]) && AllDigits(s[8..])
    then
      var c := CivilDate(DigitsValue(s[..4]), DigitsValue(s[5..7]), DigitsValue(s[8..]));
      if IsCivilDate(c) then Some(c) else None
    else None
  }

  lemma TwoDigitsValue(n: nat)
    requires n < 100
    ensures DigitsValue(TwoDigits(n)) == n
  {
    var s := TwoDigits(n);
    assert s[..1] == [s[0]];
    assert DigitsValue(s[..1]) == DigitsValue([]) * 10 + DigitValue(s[0]);
  }

  lemma FourDigitsValue(n: nat)
    requires n < 10000
    ensures DigitsValue(FourDigits(n)) == n
  {
    var s := FourDigits(n);
    assert s[..3][..2][..1] == [s[0]];
    assert s[..3][..2] == s[..2];
    assert DigitsValue(s[..1]) == DigitsValue([]) * 10 + DigitValue(s[0]);
    assert DigitsValue(s[..2]) == DigitsValue(s[..1]) * 10 + DigitValue(s[1]);
    assert DigitsValue(s[..3]) == DigitsValue(s[..2]) * 10 + DigitValue(s[2]);
    assert DigitsValue(s) == ((n / 1000 * 10 + n / 100 % 10) * 10 + n / 10 % 10) * 10 + n % 10;
    DecimalDigits(n);
  }

  lemma DecimalDigits(n: nat)
    requires n < 10000
    ensures ((n / 1000 * 10 + n / 100 % 10) * 10 + n / 10 % 10) * 10 + n % 10 == n
  {
    assert n / 100 == n / 1000 * 10 + n / 100 % 10;
    assert n / 10 == n / 100 * 10 + n / 10 % 10;
    assert n == n / 10 * 10 + n % 10;
  }

  /** Reading back the value a date input writes gives the same day. */
  lemma ParseIsoDateString(c: CivilDate)
    requires 0 <= c.year < 10000 && IsCivilDate(c)
    ensures ParseIsoDate(IsoDateString(c)) == Some(c)
  {
    var s := IsoDateString(c);
    assert s[..4] == FourDigits(c.year);
    assert s[5..7] == TwoDigits(c.month);
    assert s[8..] == TwoDigits(c.day);
    FourDigitsValue(c.year);
    TwoDigitsValue(c.month);
    TwoDigitsValue(c.day);
  }

  // ---------------------------------------------------------------------------
  // As written: `new Date(dateString).getDay()`
  // ---------------------------------------------------------------------------

  /** A date-only string is read as midnight UTC of that day; `getDay()` then
      reads the weekday in local time. */
  function UtcMidnightWeekday(offsetMinutes: int, date: string): (day: JsNumber)
    ensures day == NaN <==> ParseIsoDate(date) == None
  {
    match ParseIsoDate(date)
    case Some(c) => Num(GetDay(DaysFromCivil(c) * 86400000, offsetMinutes))
    case None => NaN
  }

  /** Anywhere west of UTC, the weekday read is the one before the calendar
      day's. */
  lemma UtcMidnightWeekdayWest(offsetMinutes: int, date: string, c: CivilDate)
    requires -1440 < offsetMinutes < 0
    requires ParseIsoDate(date) == Some(c)
    ensures UtcMidnightWeekday(offsetMinutes, date) == Num((CalendarWeekday(c) + 6) % 7)
  {
    DayBefore(DaysFromCivil(c), offsetMinutes * 60000);
  }

  /** Midnight of day `d`, moved back by less than a day, falls on day d - 1. */
  lemma DayBefore(d: int, shift: int)
    requires -86400000 < shift < 0
    ensures ((d * 86400000 + shift) / 86400000 + 4) % 7 == ((d + 4) % 7 + 6) % 7
  {
    var q, r := (d * 86400000 + shift) / 86400000, (d * 86400000 + shift) % 86400000;
    assert q * 86400000 + r == d * 86400000 + shift;
    assert (q - d) * 86400000 == shift - r;
    assert q == d - 1;
  }

  /** The date input value for a day of June 2024. */
  lemma JuneDate(day: nat, value: string)
    requires 1 <= day <= 9
    requires value == "2024-06-0" + [DigitChar(day)]
    ensures ParseIsoDate(value) == Some(CivilDate(2024, 6, day))
    ensures DaysFromCivil(CivilDate(2024, 6, day)) == 19874 + day
  {
    var c := CivilDate(2024, 6, day);
    assert FourDigits(2024) == "2024";
    assert TwoDigits(6) == "06";
    assert TwoDigits(day) == "0" + [DigitChar(day)];
    assert IsoDateString(c) == value;
    ParseIsoDateString(c);
  }

  /** The date input values for Saturday 8 and Tuesday 4 June 2024. */
  lemma ExampleDates()
    ensures ParseIsoDate("2024-06-08") == Some(CivilDate(2024, 6, 8))
    ensures CalendarWeekday(CivilDate(2024, 6, 8)) == 6
    ensures ParseIsoDate("2024-06-04") == Some(CivilDate(2024, 6, 4))
    ensures CalendarWeekday(CivilDate(2024, 6, 4)) == 2
  {
    JuneDate(8, "2024-06-08");
    JuneDate(4, "2024-06-04");
  }

  /** In Ontario in June (UTC-4) the page takes Saturday 8 June 2024 for a
      Friday and accepts it, and takes Tuesday 4 June 2024 for a Monday and
      refuses it. */
  lemma OntarioCounterexample()
    ensures CalendarWeekday(CivilDate(2024, 6, 8)) == 6
    ensures IsValidBusinessDay(d => UtcMidnightWeekday(-240, d), "2024-06-08")
    ensures CalendarWeekday(CivilDate(2024, 6, 4)) == 2
    ensures !IsValidBusinessDay(d => UtcMidnightWeekday(-240, d), "2024-06-04")
  {
    ExampleDates();
    UtcMidnightWeekdayWest(-240, "2024-06-08", CivilDate(2024, 6, 8));
    UtcMidnightWeekdayWest(-240, "2024-06-04", CivilDate(2024, 6, 4));
  }

  // ---------------------------------------------------------------------------
  // Corrected: the weekday of local midnight, `new Date(y, m - 1, d).getDay()`
  // ---------------------------------------------------------------------------

  /** The day is taken as midnight local time, which is `offsetMinutes` off
      midnight UTC. */
  function LocalMidnightWeekday(offsetMinutes: int, date: string): (day: JsNumber)
    ensures day == NaN <==> ParseIsoDate(date) == None
  {
    match ParseIsoDate(date)
    case Some(c) => Num(GetDay(DaysFromCivil(c) * 86400000 - offsetMinutes * 60000, offsetMinutes))
    case None => NaN
  }

  /** In every time zone, the corrected reading gives the weekday of the
      calendar day the customer picked, and so accepts a date exactly when
      that day is Tuesday to Friday. */
  lemma LocalMidnightWeekdayIsCalendarWeekday(offsetMinutes: int, date: string)
    ensures LocalMidnightWeekday(offsetMinutes, date)
         == match ParseIsoDate(date) case Some(c) => Num(CalendarWeekday(c)) case None => NaN
    ensures IsValidBusinessDay(d => LocalMidnightWeekday(offsetMinutes, d), date)
        <==> ParseIsoDate(date).Some? && 2 <= CalendarWeekday(ParseIsoDate(date).value) <= 5
  {
    if ParseIsoDate(date).Some? {
      var d := DaysFromCivil(ParseIsoDate(date).value);
      assert (d * 86400000 - offsetMinutes * 60000 + offsetMinutes * 60000) / 86400000 == d;
    }
  }

  /** The corrected reading refuses Saturday 8 June 2024 and accepts Tuesday
      4 June 2024 in Ontario, as in every other zone. */
  lemma OntarioCorrected(offsetMinutes: int)
    ensures !IsValidBusinessDay(d => LocalMidnightWeekday(offsetMinutes, d), "2024-06-08")
    ensures IsValidBusinessDay(d => LocalMidnightWeekday(offsetMinutes, d), "2024-06-04")
  {
    ExampleDates();
    LocalMidnightWeekdayIsCalendarWeekday(offsetMinutes, "2024-06-08");
    LocalMidnightWeekdayIsCalendarWeekday(offsetMinutes, "2024-06-04");
  }
}
