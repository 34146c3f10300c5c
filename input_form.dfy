/** The chat input form (frontend/src/components/InputForm.tsx): its
    validator, its own copy of the effort table, and its submit handler over
    the `message`, `effort` and `error` state. */
module InputForm {
  import opened Types
  import opened Strings
  import App

  const MaxLength: nat := 2000
  const EmptyMessageError := "Message cannot be empty"
  const TooLongError := "Message too long (max 2000 characters)"

  /** `ValidationResult`: valid, or invalid with an optional error text. */
  datatype Validation = Valid | Invalid(error: Option<string>)

  /** The form's `effortConfig` table. */
  function EffortConfigTable(effort: EffortLevel): (c: EffortConfig)
    ensures effort == Low ==> c == EffortConfig(1, 1)
    ensures effort == Medium ==> c == EffortConfig(3, 3)
    ensures effort == High ==> c == EffortConfig(5, 10)
  {
    match effort
    case Low => EffortConfig(1, 1)
    case Medium => EffortConfig(3, 3)
    case High => EffortConfig(5, 10)
  }

  /** The form's table and the component's table agree on every level. */
  lemma EffortTablesAgree(effort: EffortLevel)
    ensures EffortConfigTable(effort) == App.GetEffortConfig(effort)
  {
  }

  /** `validateInput`: emptiness of the trimmed text first, then the length in
      UTF-16 code units. */
  function ValidateInput(input: string): (v: Validation)
    ensures v.Invalid? ==> v.error.Some? && v.error.value != ""
  {
    if Trim(input) == "" then Invalid(Some(EmptyMessageError))
    else if Utf16Length(input) > MaxLength then Invalid(Some(TooLongError))
    else Valid
  }

  /** The validator accepts exactly the non-blank texts of at most 2000 code units. */
  lemma ValidateAcceptsIff(input: string)
    ensures ValidateInput(input) == Valid <==> !IsBlank(input) && Utf16Length(input) <= MaxLength
  {
    TrimEmptyIffBlank(input);
  }

  /** Blank text is reported as empty, whatever its length. */
  lemma ValidateBlankIsEmpty(input: string)
    requires IsBlank(input)
    ensures ValidateInput(input) == Invalid(Some(EmptyMessageError))
  {
    TrimEmptyIffBlank(input);
  }

  /** Non-blank text longer than 2000 code units is reported as too long;
      exactly 2000 is accepted. */
  lemma ValidateLength(input: string)
    requires !IsBlank(input)
    ensures Utf16Length(input) > MaxLength ==> ValidateInput(input) == Invalid(Some(TooLongError))
    ensures Utf16Length(input) == MaxLength ==> ValidateInput(input) == Valid
  {
    TrimEmptyIffBlank(input);
  }

  /** `validation.error || 'Invalid input'`. */
  function ErrorText(v: Validation): (text: string)
    requires v.Invalid?
    ensures v.error.Some? && v.error.value != "" ==> text == v.error.value
  {
    match v.error
    case Some(e) => if e != "" then e else "Invalid input"
    case None => "Invalid input"
  }

  /** The form component's state. */
  class Form {
    var message: string
    var effort: EffortLevel
    var error: Option<string>

    constructor ()
      ensures message == "" && effort == Medium && error == None
    {
      message := "";
      effort := Medium;
      error := None;
    }

    /** The text area's `onChange`. */
    method SetMessage(text: string)
      modifies this`message
      ensures message == text
    {
      message := text;
    }

    /** The effort selector's `onValueChange`. */
    method SetEffort(level: EffortLevel)
      modifies this`effort
      ensures effort == level
    {
      effort := level;
    }

    /** `handleSubmit`: on invalid text set the error and keep the text; on
        valid text clear the error, hand the text and the effort to `onSubmit`
        (the returned value) and empty the text. */
    method HandleSubmit() returns (submitted: Option<(string, EffortLevel)>)
      modifies this`message, this`error
      ensures effort == old(effort)
      ensures ValidateInput(old(message)).Invalid? ==>
        && submitted == None
        && error == Some(ErrorText(ValidateInput(old(message))))
        && message == old(message)
      ensures ValidateInput(old(message)) == Valid ==>
        && submitted == Some((old(message), effort))
        && error == None
        && message == ""
    {
      var validation := ValidateInput(message);
      if validation.Invalid? {
        error := Some(ErrorText(validation));
        submitted := None;
        return;
      }
      error := None;
      submitted := Some((message, effort));
      message := "";
    }
  }
}
