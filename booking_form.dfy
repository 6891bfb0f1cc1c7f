/// The booking form's state and what each user action does to it, stated as
/// functions of the state before the action. Each handler runs as one step:
/// every update it makes is built from the state it started from, and when it
/// updates the same piece of state twice the later update wins.
module BookingForm {
  import opened Availability
  import opened BookingMessage
  import opened Options
  import opened DateInput

  /** The inputs of the form, by their `name` attribute. */
  datatype Field = Name | Phone | Service | Date | Time | Notes

  /** `formData`: what the form holds for each input. */
  datatype FormData = FormData(name: string, phone: string, service: string,
                               date: string, time: string, notes: string)
  {
    function Get(f: Field): string {
      match f
      case Name => name
      case Phone => phone
      case Service => service
      case Date => date
      case Time => time
      case Notes => notes
    }

    /** `{...formData, [f]: v}`: input `f` now holds `v`, the others are kept. */
    function Set(f: Field, v: string): (r: FormData)
      ensures r.Get(f) == v
      ensures forall g :: g != f ==> r.Get(g) == Get(g)
    {
      match f
      case Name => this.(name := v)
      case Phone => this.(phone := v)
      case Service => this.(service := v)
      case Date => this.(date := v)
      case Time => this.(time := v)
      case Notes => this.(notes := v)
    }
  }

  const DefaultFormData := FormData("", "", "Haircut", "", "", "")

  /** `errors`: the text shown under the date and the time input ("" for none). */
  datatype Errors = Errors(date: string, time: string)
  {
    /** `{...errors, [f]: ''}`, as far as the date and time entries go. */
    function Cleared(f: Field): (r: Errors)
      ensures f == Date ==> r == Errors("", time)
      ensures f == Time ==> r == Errors(date, "")
      ensures f != Date && f != Time ==> r == this
    {
      match f
      case Date => this.(date := "")
      case Time => this.(time := "")
      case _ => this
    }
  }

  const NoErrors := Errors("", "")

  const DateRefusedOnChange :=
    "Please select a date between Tuesday and Friday. We are closed on Monday, Saturday, and Sunday."
  const DateRefusedOnSubmit := "Please select a date between Tuesday and Friday."
  const TimeRefused := "Please select a time between 10:00 AM and 8:00 PM."

  /** The component state the form uses. */
  datatype FormState = FormState(formData: FormData, errors: Errors, showBookingModal: bool)

  const Initial := FormState(DefaultFormData, NoErrors, false)

  /** What the page takes from the browser: the weekday of a date string
      (`new Date(s).getDay()`), the long date and 12-hour time renderings of
      the date and time inputs, and `encodeURIComponent`. */
  datatype Platform = Platform(weekdayOf: string -> JsNumber,
                               formatDate: string -> string,
                               formatTime: string -> string,
                               encodeURIComponent: string -> string)

  /** The draft invariant: a stored date is empty or a business day, and a
      stored time is empty or passes the hour test. */
  predicate StoredValuesValid(weekdayOf: string -> JsNumber, fd: FormData) {
    && (fd.date == "" || IsValidBusinessDay(weekdayOf, fd.date))
    && (fd.time == "" || TimeAccepted(fd.time))
  }

  // ---------------------------------------------------------------------------
  // handleInputChange
  // ---------------------------------------------------------------------------

  /** A change is refused when it puts a non-empty date that is not a business
      day, or a non-empty time that fails the hour test. */
  predicate Refused(weekdayOf: string -> JsNumber, f: Field, v: string) {
    || (f == Date && v != "" && !IsValidBusinessDay(weekdayOf, v))
    || (f == Time && v != "" && !TimeAccepted(v))
  }

  function AfterInputChange(weekdayOf: string -> JsNumber, s: FormState, f: Field, v: string): (r: FormState)
    ensures r.showBookingModal == s.showBookingModal
    ensures r.formData == (if Refused(weekdayOf, f, v) then s.formData else s.formData.Set(f, v))
  {
    if f == Date && v != "" && !IsValidBusinessDay(weekdayOf, v) then
      s.(errors := s.errors.(date := DateRefusedOnChange))
    else if f == Time && v != "" && !TimeAccepted(v) then
      s.(errors := s.errors.(time := TimeRefused))
    else
      s.(formData := s.formData.Set(f, v), errors := s.errors.Cleared(f))
  }

  /** A refused value never reaches `formData`: the field's error is set and
      the other field's error is left as it was. */
  lemma RefusedValueNotStored(weekdayOf: string -> JsNumber, s: FormState, f: Field, v: string)
    requires Refused(weekdayOf, f, v)
    ensures var r := AfterInputChange(weekdayOf, s, f, v);
      && r.formData == s.formData
      && r.showBookingModal == s.showBookingModal
      && (f == Date ==> r.errors == Errors(DateRefusedOnChange, s.errors.time))
      && (f == Time ==> r.errors == Errors(s.errors.date, TimeRefused))
  {
  }

  /** Any other change stores exactly the new value in its own input, clears
      that input's error, and changes nothing else. */
  lemma AcceptedValueStored(weekdayOf: string -> JsNumber, s: FormState, f: Field, v: string)
    requires !Refused(weekdayOf, f, v)
    ensures var r := AfterInputChange(weekdayOf, s, f, v);
      && (forall g :: r.formData.Get(g) == if g == f then v else s.formData.Get(g))
      && r.showBookingModal == s.showBookingModal
      && (f == Date ==> r.errors == Errors("", s.errors.time))
      && (f == Time ==> r.errors == Errors(s.errors.date, ""))
      && (f != Date && f != Time ==> r.errors == s.errors)
  {
  }

  lemma InputChangeKeepsInvariant(weekdayOf: string -> JsNumber, s: FormState, f: Field, v: string)
    requires StoredValuesValid(weekdayOf, s.formData)
    ensures StoredValuesValid(weekdayOf, AfterInputChange(weekdayOf, s, f, v).formData)
  {
  }

  // ---------------------------------------------------------------------------
  // isFormValid: whether the submit button is enabled
  // ---------------------------------------------------------------------------

  predicate RequiredFilled(fd: FormData) {
    fd.name != "" && fd.phone != "" && fd.date != "" && fd.time != ""
  }

  function IsFormValid(weekdayOf: string -> JsNumber, s: FormState): (ok: bool)
    ensures ok <==> && RequiredFilled(s.formData)
                    && s.errors == NoErrors
                    && IsValidBusinessDay(weekdayOf, s.formData.date)
                    && TimeAccepted(s.formData.time)
  {
    var fd := s.formData;
    if fd.name == "" || fd.phone == "" || fd.date == "" || fd.time == "" then false
    else if s.errors.date != "" || s.errors.time != "" then false
    else if !IsValidBusinessDay(weekdayOf, fd.date) then false
    else if fd.time != "" && !TimeAccepted(fd.time) then false
    else true
  }

  /** Under the draft invariant the date and hour checks of `isFormValid`
      never decide: the button is enabled exactly when the four required
      inputs are filled and no error is shown. */
  lemma FormValidFromStoredValues(weekdayOf: string -> JsNumber, s: FormState)
    requires StoredValuesValid(weekdayOf, s.formData)
    ensures IsFormValid(weekdayOf, s) <==> RequiredFilled(s.formData) && s.errors == NoErrors
  {
  }

  // ---------------------------------------------------------------------------
  // handleSubmit
  // ---------------------------------------------------------------------------

  /** `newErrors`: the message for each failing check, "" for each passing one. */
  function SubmitErrors(weekdayOf: string -> JsNumber, fd: FormData): (e: Errors)
    ensures e == NoErrors <==> IsValidBusinessDay(weekdayOf, fd.date) && TimeAccepted(fd.time)
    ensures e.date == "" || e.date == DateRefusedOnSubmit
    ensures e.time == "" || e.time == TimeRefused
  {
    Errors(if IsValidBusinessDay(weekdayOf, fd.date) then "" else DateRefusedOnSubmit,
           if TimeAccepted(fd.time) then "" else TimeRefused)
  }

  /** The message sent for draft `fd` at moment `now`. */
  function BookingText(p: Platform, fd: FormData, now: Moment): string {
    ComposeMessage(fd.name, fd.phone, fd.service, p.formatDate(fd.date), p.formatTime(fd.time),
                   fd.notes, IsBusinessOpen(now))
  }

  /** The link opened for draft `fd` at moment `now`. */
  function BookingLink(p: Platform, fd: FormData, now: Moment): string {
    WhatsAppUrl(p.encodeURIComponent(BookingText(p, fd, now)))
  }

  /** The state after a submission, and the link it opened, if any. */
  datatype Submission = Submission(state: FormState, link: Option<string>)

  function AfterSubmit(p: Platform, s: FormState, now: Moment): (out: Submission)
    ensures out.link.Some? <==> IsValidBusinessDay(p.weekdayOf, s.formData.date) && TimeAccepted(s.formData.time)
    ensures out.link.Some? ==> out.state == Initial
    ensures out.link.None? ==> out.state.formData == s.formData && out.state.showBookingModal == s.showBookingModal
  {
    var e := SubmitErrors(p.weekdayOf, s.formData);
    if e != NoErrors then Submission(s.(errors := e), None)
    else Submission(Initial, Some(BookingLink(p, s.formData, now)))
  }

  /** A submission whose date or time fails opens nothing, shows exactly the
      failing checks' messages, and keeps the draft and the dialog. */
  lemma SubmitRefused(p: Platform, s: FormState, now: Moment)
    requires !IsValidBusinessDay(p.weekdayOf, s.formData.date) || !TimeAccepted(s.formData.time)
    ensures var out := AfterSubmit(p, s, now);
      && out.link == None
      && out.state.formData == s.formData
      && out.state.showBookingModal == s.showBookingModal
      && (out.state.errors.date == "" <==> IsValidBusinessDay(p.weekdayOf, s.formData.date))
      && (out.state.errors.date != "" ==> out.state.errors.date == DateRefusedOnSubmit)
      && (out.state.errors.time == "" <==> TimeAccepted(s.formData.time))
      && (out.state.errors.time != "" ==> out.state.errors.time == TimeRefused)
  {
  }

  /** A submission whose date and time pass opens one link, to the shop's
      WhatsApp number with the encoded message as its text, and returns the
      form to its initial state: dialog closed, defaults, no errors. */
  lemma SubmitDispatches(p: Platform, s: FormState, now: Moment)
    requires IsValidBusinessDay(p.weekdayOf, s.formData.date) && TimeAccepted(s.formData.time)
    ensures var out := AfterSubmit(p, s, now);
      && out.state == Initial
      && out.link.Some?
      && TextParameter(out.link.value) == Some(p.encodeURIComponent(BookingText(p, s.formData, now)))
  {
    TextParameterOfUrl(p.encodeURIComponent(BookingText(p, s.formData, now)));
  }

  /** What the dispatched message says: the customer's name, phone and
      service verbatim, the notes section iff there are notes, and the open
      status line iff the shop is open at the moment of sending. */
  lemma DispatchedText(p: Platform, fd: FormData, now: Moment)
    ensures var m := BookingText(p, fd, now);
      && Contains(m, "\U{2022} Name: " + fd.name + "\n")
      && Contains(m, "\U{2022} Phone: " + fd.phone + "\n")
      && Contains(m, "\U{2022} Service: " + fd.service + "\n")
      && (fd.notes != "" ==> Contains(m, NotesHeading + fd.notes + "\n\n"))
      && (m == BookingText(p, fd.(notes := ""), now) <==> fd.notes == "")
      && (EndsWith(m, OpenStatus + Closing) <==> IsBusinessOpen(now))
  {
    var date, time := p.formatDate(fd.date), p.formatTime(fd.time);
    MessageShowsDetails(fd.name, fd.phone, fd.service, date, time, fd.notes, IsBusinessOpen(now));
    MessageShowsNotesIffAny(fd.name, fd.phone, fd.service, date, time, fd.notes, IsBusinessOpen(now));
    MessageStatusIffOpen(fd.name, fd.phone, fd.service, date, time, fd.notes, IsBusinessOpen(now));
  }

  /** An enabled submit button always leads to a dispatch. */
  lemma EnabledSubmitDispatches(p: Platform, s: FormState, now: Moment)
    requires IsFormValid(p.weekdayOf, s)
    ensures AfterSubmit(p, s, now).link.Some?
    ensures AfterSubmit(p, s, now).state == Initial
  {
  }

  /** With the browser reading "" as an invalid date, a draft with no date or
      no time is never dispatched, whatever the button's state. */
  lemma EmptyDateOrTimeNeverDispatched(p: Platform, s: FormState, now: Moment)
    requires p.weekdayOf("") == NaN
    requires s.formData.date == "" || s.formData.time == ""
    ensures AfterSubmit(p, s, now).link == None
  {
    EmptyTimeRefused();
  }

  lemma SubmitKeepsInvariant(p: Platform, s: FormState, now: Moment)
    requires StoredValuesValid(p.weekdayOf, s.formData)
    ensures StoredValuesValid(p.weekdayOf, AfterSubmit(p, s, now).state.formData)
  {
  }

  // ---------------------------------------------------------------------------
  // Opening and closing the dialog
  // ---------------------------------------------------------------------------

  /** "Book an appointment": the dialog shows; the draft and errors are kept. */
  function AfterOpen(s: FormState): (r: FormState)
    ensures r.showBookingModal
    ensures r.formData == s.formData && r.errors == s.errors
  {
    s.(showBookingModal := true)
  }

  /** The backdrop and the close button: the dialog closes, both errors are
      cleared, and the draft is kept for the next opening. */
  function AfterClose(s: FormState): (r: FormState)
    ensures r.formData == s.formData
    ensures r.errors == Errors("", "") && !r.showBookingModal
  {
    s.(errors := NoErrors, showBookingModal := false)
  }

  // ---------------------------------------------------------------------------
  // Runs of user actions
  // ---------------------------------------------------------------------------

  datatype Event = OpenModal | Change(field: Field, value: string) | Submit(now: Moment) | CloseModal

  function Step(p: Platform, s: FormState, e: Event): FormState {
    match e
    case OpenModal => AfterOpen(s)
    case Change(f, v) => AfterInputChange(p.weekdayOf, s, f, v)
    case Submit(now) => AfterSubmit(p, s, now).state
    case CloseModal => AfterClose(s)
  }

  function Run(p: Platform, s: FormState, events: seq<Event>): FormState
    decreases |events|
  {
    if events == [] then s else Run(p, Step(p, s, events[0]), events[1..])
  }

  lemma StepKeepsInvariant(p: Platform, s: FormState, e: Event)
    requires StoredValuesValid(p.weekdayOf, s.formData)
    ensures StoredValuesValid(p.weekdayOf, Step(p, s, e).formData)
  {
    match e
    case OpenModal =>
    case Change(f, v) => InputChangeKeepsInvariant(p.weekdayOf, s, f, v);
    case Submit(now) => SubmitKeepsInvariant(p, s, now);
    case CloseModal =>
  }

  lemma {:induction false} RunKeepsInvariant(p: Platform, s: FormState, events: seq<Event>)
    requires StoredValuesValid(p.weekdayOf, s.formData)
    ensures StoredValuesValid(p.weekdayOf, Run(p, s, events).formData)
    decreases |events|
  {
    if events != [] {
      StepKeepsInvariant(p, s, events[0]);
      RunKeepsInvariant(p, Step(p, s, events[0]), events[1..]);
    }
  }

  /** Whatever the user does from the first render, a stored date is empty or
      a business day and a stored time is empty or passes the hour test (its
      hour is NaN or in [10, 20)), and
      so the submit button is enabled exactly when the required inputs are
      filled and no error is shown. */
  lemma ReachableDraftsValid(p: Platform, events: seq<Event>)
    ensures StoredValuesValid(p.weekdayOf, Run(p, Initial, events).formData)
    ensures var s := Run(p, Initial, events);
      IsFormValid(p.weekdayOf, s) <==> RequiredFilled(s.formData) && s.errors == NoErrors
  {
    RunKeepsInvariant(p, Initial, events);
    FormValidFromStoredValues(p.weekdayOf, Run(p, Initial, events));
  }

  // ---------------------------------------------------------------------------
  // Times a time input produces
  // ---------------------------------------------------------------------------

  /** A value an `<input type="time">` can hold: empty, or "HH:MM". */
  ghost predicate IsTimeInputValue(v: string) {
    v == "" || exists h: nat, m: nat :: h < 24 && m < 60 && v == TimeValue(h, m)
  }

  /** Empty, or "HH:MM" from 10:00 to 19:59. */
  ghost predicate TimeWithinHours(t: string) {
    t == "" || exists h: nat, m: nat :: 10 <= h < 20 && m < 60 && t == TimeValue(h, m)
  }

  /** Every time the user types is one a time input can hold. */
  ghost predicate TimeInputsOnly(events: seq<Event>) {
    forall i :: 0 <= i < |events| && events[i].Change? && events[i].field == Time ==> IsTimeInputValue(events[i].value)
  }

  lemma StepKeepsTimeWithinHours(p: Platform, s: FormState, e: Event)
    requires TimeWithinHours(s.formData.time)
    requires e.Change? && e.field == Time ==> IsTimeInputValue(e.value)
    ensures TimeWithinHours(Step(p, s, e).formData.time)
  {
    match e
    case Change(f, v) =>
      if f == Time && v != "" && !Refused(p.weekdayOf, f, v) {
        var h: nat, m: nat :| h < 24 && m < 60 && v == TimeValue(h, m);
        TimeValueAcceptedIff(h, m);
      }
    case _ =>
  }

  lemma {:induction false} RunKeepsTimeWithinHours(p: Platform, s: FormState, events: seq<Event>)
    requires TimeWithinHours(s.formData.time)
    requires TimeInputsOnly(events)
    ensures TimeWithinHours(Run(p, s, events).formData.time)
    decreases |events|
  {
    if events != [] {
      StepKeepsTimeWithinHours(p, s, events[0]);
      assert TimeInputsOnly(events[1..]) by {
        forall i | 0 <= i < |events[1..]| && events[1..][i].Change? && events[1..][i].field == Time
          ensures IsTimeInputValue(events[1..][i].value)
        {
          assert events[1..][i] == events[i + 1];
        }
      }
      RunKeepsTimeWithinHours(p, Step(p, s, events[0]), events[1..]);
    }
  }

  /** When every time entered comes from a time input, the form only ever
      holds an empty time or one from 10:00 to 19:59. */
  lemma ReachableTimesWithinHours(p: Platform, events: seq<Event>)
    requires TimeInputsOnly(events)
    ensures var t := Run(p, Initial, events).formData.time;
      t == "" || exists h: nat, m: nat :: 10 <= h < 20 && m < 60 && t == TimeValue(h, m)
  {
    RunKeepsTimeWithinHours(p, Initial, events);
  }

  /** The five actions of the worked example below, from the first render. */
  lemma {:induction false} WorkedExampleRun(p: Platform, wednesday: string)
    requires wednesday != "" && p.weekdayOf(wednesday) == Num(3)
    ensures Run(p, Initial, [OpenModal, Change(Name, "John Doe"), Change(Phone, "555-1234"),
                             Change(Date, wednesday), Change(Time, "14:30")])
         == FormState(FormData("John Doe", "555-1234", "Haircut", wednesday, "14:30", ""), NoErrors, true)
  {
    var events := [OpenModal, Change(Name, "John Doe"), Change(Phone, "555-1234"),
                   Change(Date, wednesday), Change(Time, "14:30")];
    var s0 := FormState(DefaultFormData, NoErrors, true);
    var s1 := s0.(formData := s0.formData.(name := "John Doe"));
    var s2 := s1.(formData := s1.formData.(phone := "555-1234"));
    var s3 := s2.(formData := s2.formData.(date := wednesday));
    var s4 := s3.(formData := s3.formData.(time := "14:30"));
    assert Step(p, Initial, events[0]) == s0;
    assert Step(p, s0, events[1]) == s1 by {
      assert !Refused(p.weekdayOf, Name, "John Doe");
    }
    assert Step(p, s1, events[2]) == s2 by {
      assert !Refused(p.weekdayOf, Phone, "555-1234");
    }
    assert Step(p, s2, events[3]) == s3 by {
      assert IsValidBusinessDay(p.weekdayOf, wednesday);
    }
    assert Step(p, s3, events[4]) == s4 by {
      TimeValueAcceptedIff(14, 30);
      assert TimeValue(14, 30) == "14:30";
    }
    assert Run(p, s4, events[5..]) == s4;
    assert Run(p, s3, events[4..]) == s4;
    assert Run(p, s2, events[3..]) == s4;
    assert Run(p, s1, events[2..]) == s4;
    assert Run(p, s0, events[1..]) == s4;
  }

  /** A customer opens the dialog, fills in "John Doe", "555-1234", a
      Wednesday and 14:30 (service left at its default, no notes): the
      button is enabled, and submitting sends a message naming them and
      returns the form to its initial state. */
  lemma WorkedExample(p: Platform, wednesday: string, now: Moment)
    requires wednesday != "" && p.weekdayOf(wednesday) == Num(3)
    ensures var s := Run(p, Initial, [OpenModal, Change(Name, "John Doe"), Change(Phone, "555-1234"),
                                      Change(Date, wednesday), Change(Time, "14:30")]);
      && s.showBookingModal
      && IsFormValid(p.weekdayOf, s)
      && AfterSubmit(p, s, now).state == Initial
      && Contains(BookingText(p, s.formData, now), "\U{2022} Name: " + "John Doe" + "\n")
      && Contains(BookingText(p, s.formData, now), "\U{2022} Phone: " + "555-1234" + "\n")
      && Contains(BookingText(p, s.formData, now), "\U{2022} Service: " + "Haircut" + "\n")
  {
    WorkedExampleRun(p, wednesday);
    TimeValueAcceptedIff(14, 30);
    assert TimeValue(14, 30) == "14:30";
    var fd := FormData("John Doe", "555-1234", "Haircut", wednesday, "14:30", "");
    DispatchedText(p, fd, now);
  }

  // ---------------------------------------------------------------------------
  // The weekday of a date input, as the page reads it and as it means to
  // ---------------------------------------------------------------------------

  /** As written, in Ontario in June the handler stores Saturday 8 June 2024
      and clears the date error. */
  lemma SaturdayStoredInOntario(p: Platform, s: FormState)
    requires forall d :: p.weekdayOf(d) == UtcMidnightWeekday(-240, d)
    ensures AfterInputChange(p.weekdayOf, s, Date, "2024-06-08").formData.date == "2024-06-08"
    ensures AfterInputChange(p.weekdayOf, s, Date, "2024-06-08").errors.date == ""
  {
    OntarioCounterexample();
    assert IsValidBusinessDay(p.weekdayOf, "2024-06-08");
  }

  /** With the corrected reading, in any time zone, every date the form ever
      holds is empty or names a Tuesday to Friday of the calendar. */
  lemma ReachableDatesAreCalendarBusinessDays(p: Platform, offsetMinutes: int, events: seq<Event>)
    requires forall d :: p.weekdayOf(d) == LocalMidnightWeekday(offsetMinutes, d)
    ensures var date := Run(p, Initial, events).formData.date;
      date == "" || (ParseIsoDate(date).Some? && 2 <= CalendarWeekday(ParseIsoDate(date).value) <= 5)
  {
    var date := Run(p, Initial, events).formData.date;
    ReachableDraftsValid(p, events);
    LocalMidnightWeekdayIsCalendarWeekday(offsetMinutes, date);
    assert IsValidBusinessDay(p.weekdayOf, date) == IsValidBusinessDay(d => LocalMidnightWeekday(offsetMinutes, d), date);
  }
}
