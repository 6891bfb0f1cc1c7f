/// The availability rules of the appointment form: which dates and times the
/// shop accepts, and whether it is open at a given moment.
module Availability {

  /** A JavaScript number as far as these rules need one: an integer, or NaN. */
  datatype JsNumber = Num(value: int) | NaN

  /** `x < k` in JavaScript: every comparison with NaN is false. */
  predicate Below(x: JsNumber, k: int) {
    x.Num? && x.value < k
  }

  /** `x >= k` in JavaScript. */
  predicate AtLeast(x: JsNumber, k: int) {
    x.Num? && x.value >= k
  }

  /** `x <= k` in JavaScript. */
  predicate AtMost(x: JsNumber, k: int) {
    x.Num? && x.value <= k
  }

  // ---------------------------------------------------------------------------
  // Dates
  // ---------------------------------------------------------------------------

  /** A date is a business day when its weekday (`new Date(date).getDay()`,
      0 = Sunday .. 6 = Saturday, NaN for a date the browser cannot read)
      lies between Tuesday (2) and Friday (5). The weekday of a date string is
      supplied by the caller as `weekdayOf`. */
  function IsValidBusinessDay(weekdayOf: string -> JsNumber, date: string): (ok: bool)
    ensures ok <==> weekdayOf(date) in {Num(2), Num(3), Num(4), Num(5)}
  {
    var day := weekdayOf(date);
    AtLeast(day, 2) && AtMost(day, 5)
  }

  // ---------------------------------------------------------------------------
  // Times
  // ---------------------------------------------------------------------------

  /** `s.split(':')[0]`: the text before the first colon, or all of `s` when
      it has none. */
  function BeforeColon(s: string): (head: string)
    ensures head <= s
    ensures ':' !in head
    ensures |head| < |s| ==> s[|head|] == ':'
  {
    if s == [] || s[0] == ':' then [] else [s[0]] + BeforeColon(s[1..])
  }

  predicate IsDigit(c: char) {
    '0' <= c <= '9'
  }

  predicate AllDigits(s: string) {
    forall i :: 0 <= i < |s| ==> IsDigit(s[i])
  }

  function DigitValue(c: char): (d: nat)
    requires IsDigit(c)
    ensures d < 10
  {
    (c as int) - ('0' as int)
  }

  function Pow10(n: nat): (p: nat)
    ensures p >= 1
  {
    if n == 0 then 1 else 10 * Pow10(n - 1)
  }

  /** The value of a string of decimal digits, most significant first. */
  function DigitsValue(s: string): (n: nat)
    requires AllDigits(s)
    ensures n < Pow10(|s|)
  {
    if s == [] then 0 else 10 * DigitsValue(s[..|s| - 1]) + DigitValue(s[|s| - 1])
  }

  /** `Number(s)` on the strings an hour field can hold: the empty string
      reads as 0, a run of decimal digits as its value, anything else as NaN. */
  function ToNumber(s: string): (x: JsNumber)
    ensures s == "" ==> x == Num(0)
    ensures x.Num? ==> 0 <= x.value < Pow10(|s|)
    ensures s != "" && AllDigits(s) ==> x == Num(DigitsValue(s))
    ensures !AllDigits(s) ==> x == NaN
  {
    if s == "" then Num(0)
    else if AllDigits(s) then Num(DigitsValue(s))
    else NaN
  }

  /** `value.split(':').map(Number)[0]`: the hour of a time string. */
  function HourOf(time: string): (hours: JsNumber)
    ensures hours == NaN <==> !AllDigits(BeforeColon(time))
  {
    ToNumber(BeforeColon(time))
  }

  /** The hour test of the form: a time is turned away when
      `hours < 10 || hours >= 20`. An hour that is NaN fails both comparisons
      and so passes. */
  function TimeAccepted(time: string): (ok: bool)
    ensures ok <==> HourOf(time) == NaN || 10 <= HourOf(time).value < 20
  {
    var hours := HourOf(time);
    !(Below(hours, 10) || AtLeast(hours, 20))
  }

  /** The decimal digit for `d`. */
  function DigitChar(d: nat): (c: char)
    requires d < 10
    ensures IsDigit(c) && DigitValue(c) == d
  {
    ('0' as int + d) as char
  }

  /** `n` written with two digits, as a time field writes hours and minutes. */
  function TwoDigits(n: nat): (s: string)
    requires n < 100
    ensures |s| == 2 && AllDigits(s)
  {
    [DigitChar(n / 10), DigitChar(n % 10)]
  }

  /** The value an `<input type="time">` produces: "HH:MM". */
  function TimeValue(hour: nat, minute: nat): string
    requires hour < 24 && minute < 60
  {
    TwoDigits(hour) + ":" + TwoDigits(minute)
  }

  /** Reading the hour back out of "HH:MM" gives HH. */
  lemma HourOfTimeValue(hour: nat, minute: nat)
    requires hour < 24 && minute < 60
    ensures HourOf(TimeValue(hour, minute)) == Num(hour)
  {
    var t := TimeValue(hour, minute);
    var hh := TwoDigits(hour);
    assert t[0] == hh[0] && t[1] == hh[1] && t[2] == ':';
    assert BeforeColon(t[2..]) == [];
    assert BeforeColon(t[1..]) == [hh[1]] + BeforeColon(t[2..]);
    assert BeforeColon(t) == hh;
    assert hh[..1] == [hh[0]];
    assert DigitsValue(hh[..1]) == DigitsValue([]) * 10 + DigitValue(hh[0]);
  }

  /** Every time a time field can hold is accepted exactly when its hour lies
      in [10, 20). */
  lemma TimeValueAcceptedIff(hour: nat, minute: nat)
    requires hour < 24 && minute < 60
    ensures TimeAccepted(TimeValue(hour, minute)) <==> 10 <= hour < 20
  {
    HourOfTimeValue(hour, minute);
  }

  /** The boundaries: 09:59 and 20:00 are refused, 10:00 and 19:59 accepted. */
  lemma TimeBoundaries()
    ensures !TimeAccepted("09:59")
    ensures TimeAccepted("10:00")
    ensures TimeAccepted("19:59")
    ensures !TimeAccepted("20:00")
  {
    TimeValueAcceptedIff(9, 59);
    assert TimeValue(9, 59) == "09:59";
    TimeValueAcceptedIff(10, 0);
    assert TimeValue(10, 0) == "10:00";
    TimeValueAcceptedIff(19, 59);
    assert TimeValue(19, 59) == "19:59";
    TimeValueAcceptedIff(20, 0);
    assert TimeValue(20, 0) == "20:00";
  }

  /** An empty time reads as hour 0 and is refused. */
  lemma EmptyTimeRefused()
    ensures HourOf("") == Num(0)
    ensures !TimeAccepted("")
  {
  }

  /** A time whose hour is not a number reads as NaN and is accepted. */
  lemma NonNumericHourAccepted()
    ensures HourOf("ab:cd") == NaN
    ensures TimeAccepted("ab:cd")
  {
    assert BeforeColon("ab:cd") == "ab" by {
      assert BeforeColon("b:cd") == "b" + BeforeColon(":cd");
    }
    assert !IsDigit("ab"[0]);
  }

  // ---------------------------------------------------------------------------
  // The clock
  // ---------------------------------------------------------------------------

  type Weekday = d: int | 0 <= d <= 6
  type ClockHour = h: int | 0 <= h <= 23

  /** A moment as the clock reports it: `getDay()` and `getHours()`. */
  datatype Moment = Moment(day: Weekday, hour: ClockHour)

  /** The shop is open Tuesday to Friday, from 10:00 up to 20:00. */
  function IsBusinessOpen(now: Moment): (open: bool)
    ensures open <==> now.day in {2, 3, 4, 5} && now.hour in {10, 11, 12, 13, 14, 15, 16, 17, 18, 19}
  {
    if now.day >= 2 && now.day <= 5 then now.hour >= 10 && now.hour < 20 else false
  }

  /** The clock check applies the same two rules as the form: a moment is
      open exactly when a date on its weekday and a time at its hour would
      both pass the form's checks. */
  lemma OpenAgreesWithForm(weekdayOf: string -> JsNumber, now: Moment, date: string, time: string)
    requires weekdayOf(date) == Num(now.day)
    requires HourOf(time) == Num(now.hour)
    ensures IsBusinessOpen(now) <==> IsValidBusinessDay(weekdayOf, date) && TimeAccepted(time)
  {
  }
}
