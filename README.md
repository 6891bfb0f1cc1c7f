# Velvet Handlebear booking form, in Dafny

The barbershop's single page (`src/app/page.tsx`, component `Home`) holds one
piece of logic: the appointment-request dialog. A customer enters a name, a
phone number, a service, a date, a time and optional notes. A date must fall
on Tuesday to Friday and a time between 10:00 and 20:00. A change that breaks
either rule is refused with a message under the input. The submit button is
enabled only when the form is complete and valid. Submitting checks date and
time once more, then opens a WhatsApp link (`https://wa.me/15199549333?text=`
followed by the percent-encoded message), closes the dialog and resets the
form.

The model has five modules (plus a shared `Options` datatype):

- `Availability` (`availability.dfy`): the date rule, the hour rule, and the
  "open now" check. JavaScript's `Number` and its NaN comparisons are
  written out.
- `BookingMessage` (`booking_message.dfy`): the message template and the
  link.
- `BookingForm` (`booking_form.dfy`): the component state as a value, each
  handler as a function from the state before to the state after, and the
  lemmas about them. This includes the draft invariant over any run of user
  actions.
- `HomePage` (`home_page.dfy`): class `Home`, whose fields are the
  component's `formData`, `errors` and `showBookingModal`. Its methods are
  the handlers, written step by step like the source. Each method's
  postcondition ties the new state to the `BookingForm` function for that
  handler.
- `DateInput` (`date_input.dfy`): the calendar weekday of a date input's
  value, the weekday the page actually reads from it (see "## Findings"),
  and the corrected reading.

Each handler is one atomic step. Every state update in a handler is built
from the state it started with, and when a handler updates the same state
twice the later update wins. This is how a refused date or time keeps the
other field's error. It is also why the refusal message replaces the
clearing at lines 42-45.

The browser is a parameter, `BookingForm.Platform`. It supplies the weekday
of a date string, the long-date and 12-hour-time renderings, and
`encodeURIComponent`. "Now" is a parameter, `Availability.Moment`: a weekday
and an hour.

Three details of the page shape the model:

- Closing the dialog keeps the draft. It clears only the two errors and
  hides the dialog (lines 752-755 and 768-771). Only a successful submission
  resets the draft.
- Submission checks the date and time again, with a shorter date message
  than the one shown on input. The date is refused again if it is not a
  business day, and the time if its hour fails the test.
- The hour test refuses `hours < 10 || hours >= 20`. An hour that is not a
  number is NaN, which fails both comparisons, so it passes. An empty time
  reads as hour 0 and is refused at submission. An empty time is never
  checked on input.

## Model

| member | source | states |
|---|---|---|
| Availability.IsValidBusinessDay | src/app/page.tsx:31-36 | a date is a business day iff its weekday is one of 2, 3, 4, 5 (Tuesday to Friday); an unreadable date (NaN weekday) is not |
| Availability.BeforeColon | src/app/page.tsx:60 | `split(':')[0]`: a prefix of the time string with no colon in it, followed by a colon or the end of the string |
| Availability.DigitsValue | src/app/page.tsx:60 | the value of n decimal digits is below 10^n |
| Availability.ToNumber | src/app/page.tsx:60 | `Number` on an hour: "" reads as 0, a non-empty digit string as `Num` of its decimal value (below 10^length), anything else as NaN |
| Availability.HourOf | src/app/page.tsx:60 | the hour of a time string is NaN exactly when the text before its first colon is not all digits |
| Availability.TimeAccepted | src/app/page.tsx:59-61 | a time passes the hour test iff its hour is NaN or lies in [10, 20) |
| Availability.HourOfTimeValue | src/app/page.tsx:60 | reading the hour out of an "HH:MM" time value gives HH |
| Availability.TimeValueAcceptedIff | src/app/page.tsx:105-108 | every "HH:MM" time value passes iff 10 <= HH < 20 |
| Availability.TimeBoundaries | src/app/page.tsx:128-129 | "09:59" and "20:00" are refused, "10:00" and "19:59" accepted |
| Availability.EmptyTimeRefused | src/app/page.tsx:128-129 | an empty time reads as hour 0 and is refused |
| Availability.NonNumericHourAccepted | src/app/page.tsx:61 | a non-numeric hour is NaN and passes the test |
| Availability.IsBusinessOpen | src/app/page.tsx:76-86 | open iff the weekday is Tuesday to Friday and the hour is 10 to 19 |
| Availability.OpenAgreesWithForm | src/app/page.tsx:76-86 | the clock check is open exactly when a date on the same weekday and a time at the same hour both pass the form's checks |
| BookingMessage.ComposeMessage | src/app/page.tsx:162-175 | the message starts with the greeting; its lines are stated by MessageShowsDetails, MessageShowsNotesIffAny and MessageStatusIffOpen |
| BookingMessage.WhatsAppUrl | src/app/page.tsx:177-179 | the link is the `https://wa.me/15199549333?text=` prefix followed by exactly the encoded message; TextParameterOfUrl reads it back |
| BookingMessage.TextParameter | src/app/page.tsx:179 | a link has a `text` parameter iff it starts with `https://wa.me/15199549333?text=` |
| BookingMessage.TextParameterOfUrl | src/app/page.tsx:177-179 | the `text` parameter of the opened link is exactly the encoded message |
| BookingMessage.UrlDeterminesMessage | src/app/page.tsx:178-179 | with an injective encoding, equal links carry equal messages |
| BookingMessage.ConcatSplit | src/app/page.tsx:162-175 | each part of the message stands whole between the parts before and after it |
| BookingMessage.MessageShowsDetails | src/app/page.tsx:167-171 | name, phone, service, date and time appear verbatim, each on its own labelled line |
| BookingMessage.MessageShowsNotesIffAny | src/app/page.tsx:173 | the message differs from the notes-free message iff there are notes, and non-empty notes appear under their heading |
| BookingMessage.MessageStatusIffOpen | src/app/page.tsx:139-142 | the message ends with the "open" status line iff the shop is open, and with the "closed" one iff it is not |
| BookingForm.FormData.Set | src/app/page.tsx:70-73 | `{...formData, [name]: value}`: the named input holds the new value and every other input is kept |
| BookingForm.Errors.Cleared | src/app/page.tsx:42-45 | `{...errors, [name]: ''}`: the named field's error is emptied and the other is kept |
| BookingForm.AfterInputChange | src/app/page.tsx:38-74 | the dialog is kept, and the draft is kept for a refused value and otherwise gets the new value; the errors are stated by RefusedValueNotStored and AcceptedValueStored |
| BookingForm.RefusedValueNotStored | src/app/page.tsx:48-67 | a refused date or time leaves `formData` and the dialog unchanged, sets that field's error and keeps the other field's error |
| BookingForm.AcceptedValueStored | src/app/page.tsx:41-45 | any other change stores exactly the new value in its own input, clears that input's error, and changes nothing else |
| BookingForm.InputChangeKeepsInvariant | src/app/page.tsx:38-74 | an input change keeps a stored date empty or a business day and a stored time empty or passing the hour test (hour NaN or in [10, 20)) |
| BookingForm.IsFormValid | src/app/page.tsx:88-113 | the button is enabled iff name, phone, date and time are filled, both errors are empty, the date is a business day and the time passes the hour test |
| BookingForm.FormValidFromStoredValues | src/app/page.tsx:100-110 | under the draft invariant, the date and hour checks of `isFormValid` never decide the outcome |
| BookingForm.SubmitErrors | src/app/page.tsx:118-132 | `newErrors` is empty iff the date is a business day and the time passes the hour test; each entry is "" or that check's message |
| BookingForm.AfterSubmit | src/app/page.tsx:115-195 | a link is opened iff both checks pass; then the state is the initial one, otherwise the draft and the dialog are kept (details in SubmitRefused and SubmitDispatches) |
| BookingForm.SubmitRefused | src/app/page.tsx:118-137 | a failing date or time opens nothing, sets exactly the failing checks' messages and "" for the others, and keeps the draft and the dialog |
| BookingForm.SubmitDispatches | src/app/page.tsx:177-194 | a passing date and time open one link carrying the encoded message, close the dialog, reset the draft to defaults (service "Haircut") and clear both errors |
| BookingForm.DispatchedText | src/app/page.tsx:162-175 | the sent message names the customer, phone and service verbatim, has the notes section iff there are notes, and the open line iff the shop is open now |
| BookingForm.EnabledSubmitDispatches | src/app/page.tsx:930 | an enabled submit button always leads to a dispatch and a reset |
| BookingForm.EmptyDateOrTimeNeverDispatched | src/app/page.tsx:121-132 | a draft with no date or no time is never dispatched |
| BookingForm.SubmitKeepsInvariant | src/app/page.tsx:183-190 | a submission keeps the draft invariant |
| BookingForm.AfterOpen | src/app/page.tsx:340 | the dialog shows and the draft and errors are kept |
| BookingForm.AfterClose | src/app/page.tsx:752-755 | closing the dialog (backdrop, or the close button at lines 768-771) clears both errors and keeps the draft |
| BookingForm.StepKeepsInvariant | src/app/page.tsx:38-74 | every user action (open, input change, submit, close) keeps the draft invariant |
| BookingForm.RunKeepsInvariant | src/app/page.tsx:38-74 | any sequence of user actions keeps the draft invariant |
| BookingForm.ReachableDraftsValid | src/app/page.tsx:10-21 | from the initial state, every reachable draft satisfies the invariant, and the button is enabled iff the required inputs are filled and no error is shown |
| BookingForm.StepKeepsTimeWithinHours | src/app/page.tsx:59-68 | when times come from a time input, each action keeps the stored time empty or "HH:MM" with 10 <= HH < 20 |
| BookingForm.RunKeepsTimeWithinHours | src/app/page.tsx:59-73 | the same over any sequence of actions |
| BookingForm.ReachableTimesWithinHours | src/app/page.tsx:10-21 | from the first render, if every time entered is one a time input produces, the stored time is empty or between 10:00 and 19:59 |
| BookingForm.WorkedExample | src/app/page.tsx:162-171 | entering "John Doe", "555-1234", a Wednesday and 14:30 enables the button, and submitting sends a message naming them and resets the form |
| DateInput.ParseIsoDateString | src/app/page.tsx:32 | reading back the "YYYY-MM-DD" value a date input holds for a calendar day gives that day |
| DateInput.UtcMidnightWeekdayWest | src/app/page.tsx:32-33 | as written, anywhere west of UTC the weekday read from a date string is the one before its calendar weekday |
| DateInput.UtcMidnightWeekday | src/app/page.tsx:32-33 | as written, the weekday is `getDay()` of UTC midnight read in local time; NaN exactly for a string that names no calendar day (see UtcMidnightWeekdayWest) |
| DateInput.OntarioCounterexample | src/app/page.tsx:31-36 | as written, at UTC-4 Saturday 2024-06-08 passes the business-day check and Tuesday 2024-06-04 fails it |
| DateInput.LocalMidnightWeekdayIsCalendarWeekday | src/app/page.tsx:31-36 | corrected, in every time zone the weekday read is the calendar weekday, and a date passes iff its calendar day is Tuesday to Friday |
| DateInput.LocalMidnightWeekday | src/app/page.tsx:31-36 | corrected, the weekday of local midnight of the day; NaN exactly for a string that names no calendar day (see LocalMidnightWeekdayIsCalendarWeekday) |
| DateInput.OntarioCorrected | src/app/page.tsx:31-36 | corrected, Saturday 2024-06-08 fails and Tuesday 2024-06-04 passes in every zone |
| BookingForm.SaturdayStoredInOntario | src/app/page.tsx:48-56 | as written, at UTC-4 the input handler stores Saturday 2024-06-08 and clears the date error |
| BookingForm.ReachableDatesAreCalendarBusinessDays | src/app/page.tsx:38-74 | with the corrected reading, every date the form ever holds is empty or a Tuesday to Friday of the calendar, in any time zone |
| HomePage.Home.constructor | src/app/page.tsx:10-21 | the first render: dialog hidden, service "Haircut", every other input empty, no errors |
| HomePage.Home.OpenBookingModal | src/app/page.tsx:340 | shows the dialog and changes nothing else |
| HomePage.Home.HandleInputChange | src/app/page.tsx:38-74 | the new state is the input-change transition of the old one, and the draft invariant is kept |
| HomePage.Home.HandleSubmit | src/app/page.tsx:115-195 | the new state and the returned link are the submission of the old state, and the draft invariant is kept |
| HomePage.Home.CloseBookingModal | src/app/page.tsx:768-771 | the new state is the closing transition of the old one |

## Left out

- `src/app/layout.tsx`: static metadata, `<head>` links and a script tag. There is no logic in it.
- Presentation: the JSX, CSS class choices, the scroll listener (lines 23-29), the mobile menu toggle, images and the map embed.
- `new Date(dateString).getDay()`: the form model takes the weekday as the `Platform.weekdayOf` parameter. `DateInput` models the page's reading (`UtcMidnightWeekday`) and the corrected one (`LocalMidnightWeekday`) for "YYYY-MM-DD" strings of real calendar days with years 0000 to 9999. How browsers read other strings is not modelled; they give NaN here.
- DateInput.UtcMidnightWeekday: the zone offset is one fixed number. Daylight-saving changes between UTC midnight and local time are not modelled.
- `new Date()`: the clock is the `Moment` parameter of `IsBusinessOpen` and of the submit handler.
- `toLocaleDateString` and `toLocaleTimeString`, with the `parseInt` calls that feed them: these are the `Platform.formatDate` and `Platform.formatTime` parameters. Their output is opaque text.
- `encodeURIComponent` is the `Platform.encodeURIComponent` parameter. Injectivity is only a hypothesis of `BookingMessage.UrlDeterminesMessage`.
- `window.open`: the submit handler returns the URL it would open. The new tab and whatever WhatsApp does with the link are outside the model.
- Availability.ToNumber: `Number` also accepts surrounding whitespace, a sign, a decimal point, an exponent, hexadecimal, octal and binary prefixes, and `Infinity`. The model reads all of those as NaN. A time input never produces them.
- The `required`, `min` and `max` attributes (lines 848 and 880-881): the browser enforces them, not the handlers.
- `errors` gains an entry named after every other input the user edits (line 44). These entries always hold "" and nothing reads them. The model keeps only the date and time entries.
- `e.preventDefault()` and React's rendering: a handler is one atomic state transition.

## Findings

| source | as written | input that shows it | evidently intended | confidence | as-written member | corrected member |
|---|---|---|---|---|---|---|
| src/app/page.tsx:31-36 | `new Date("YYYY-MM-DD")` is midnight UTC, and `getDay()` reads the weekday in local time, so west of UTC every date reads as the day before | at UTC-4 (Ontario in summer), "2024-06-08", a Saturday, reads as Friday and is accepted; "2024-06-04", a Tuesday, reads as Monday and is refused | the weekday of the calendar day the customer picked | not executed | DateInput.OntarioCounterexample | DateInput.LocalMidnightWeekdayIsCalendarWeekday |
