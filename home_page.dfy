/// The `Home` component's booking state and its event handlers, written as
/// the page writes them: updates to component state, early returns, and a
/// local `newErrors`/`hasErrors` pair in the submit handler.
module HomePage {
  import opened Availability
  import opened BookingMessage
  import opened Options
  import opened BookingForm

  class Home {
    /** The browser services the handlers call. */
    const platform: Platform

    var formData: FormData
    var errors: Errors
    var showBookingModal: bool

    function State(): FormState
      reads this
    {
      FormState(formData, errors, showBookingModal)
    }

    /** The first render: the dialog closed, default draft, no errors. */
    constructor (platform: Platform)
      ensures this.platform == platform
      ensures State() == Initial
      ensures StoredValuesValid(platform.weekdayOf, formData)
    {
      this.platform := platform;
      formData := DefaultFormData;
      errors := NoErrors;
      showBookingModal := false;
    }

    /** "Book an appointment": shows the dialog and nothing else. */
    method OpenBookingModal()
      modifies this
      ensures State() == AfterOpen(old(State()))
    {
      showBookingModal := true;
    }

    /** `handleInputChange`. The clearing of the field's error and the refusal
        message are both built from the errors this handler started with, so
        when a value is refused its message replaces the clearing. */
    method HandleInputChange(name: Field, value: string)
      modifies this
      ensures State() == AfterInputChange(platform.weekdayOf, old(State()), name, value)
      ensures StoredValuesValid(platform.weekdayOf, old(formData)) ==> StoredValuesValid(platform.weekdayOf, formData)
    {
      if StoredValuesValid(platform.weekdayOf, formData) {
        InputChangeKeepsInvariant(platform.weekdayOf, State(), name, value);
      }
      var clearedErrors := errors.Cleared(name);

      if name == Date && value != "" {
        if !IsValidBusinessDay(platform.weekdayOf, value) {
          errors := errors.(date := DateRefusedOnChange);
          return;
        }
      }

      if name == Time && value != "" {
        var hours := HourOf(value);
        if Below(hours, 10) || AtLeast(hours, 20) {
          errors := errors.(time := TimeRefused);
          return;
        }
      }

      errors := clearedErrors;
      formData := formData.Set(name, value);
    }

    /** `handleSubmit`: checks the date and the time again; on failure shows
        the failing checks' messages, otherwise opens the WhatsApp link (the
        returned URL stands for `window.open`), closes the dialog and resets
        the form. */
    method HandleSubmit(now: Moment) returns (link: Option<string>)
      modifies this
      ensures Submission(State(), link) == AfterSubmit(platform, old(State()), now)
      ensures StoredValuesValid(platform.weekdayOf, old(formData)) ==> StoredValuesValid(platform.weekdayOf, formData)
    {
      var hasErrors := false;
      var newErrors := Errors("", "");

      if !IsValidBusinessDay(platform.weekdayOf, formData.date) {
        newErrors := newErrors.(date := DateRefusedOnSubmit);
        hasErrors := true;
      }

      var hours := HourOf(formData.time);
      if Below(hours, 10) || AtLeast(hours, 20) {
        newErrors := newErrors.(time := TimeRefused);
        hasErrors := true;
      }

      if hasErrors {
        errors := newErrors;
        return None;
      }

      var businessOpen := IsBusinessOpen(now);
      var message := ComposeMessage(formData.name, formData.phone, formData.service,
                                    platform.formatDate(formData.date), platform.formatTime(formData.time),
                                    formData.notes, businessOpen);
      var whatsappUrl := WhatsAppUrl(platform.encodeURIComponent(message));
      link := Some(whatsappUrl);
      showBookingModal := false;
      formData := DefaultFormData;
      errors := NoErrors;
    }

    /** The backdrop click and the close button. */
    method CloseBookingModal()
      modifies this
      ensures State() == AfterClose(old(State()))
    {
      showBookingModal := false;
      errors := Errors("", "");
    }
  }
}
