/** The landing page's contact form: three text fields, a per-field error map
    rebuilt by `validateForm`, and the `isSubmitting` / `isSubmitted` flags
    that a successful submission moves through. The two delays of the
    submission (the simulated send and the confirmation timer) are separate
    transitions with no timing. */
module ContactForm {
  import opened Types
  import opened Text

  datatype Field = Name | Email | Message

  const NameRequired := "Name is required"
  const NameTooShort := "Name must be at least 2 characters"
  const EmailRequired := "Email is required"
  const EmailInvalid := "Please enter a valid email address"
  const MessageRequired := "Message is required"
  const MessageTooShort := "Message must be at least 10 characters"

  /** The required check and the minimum length, both on the trimmed value;
      the length is counted in UTF-16 code units. */
  function LengthError(value: string, minLength: nat, required: string, tooShort: string): Option<string>
  {
    if Trim(value) == [] then Some(required)
    else if Utf16Length(Trim(value)) < minLength then Some(tooShort)
    else None
  }

  function NameError(name: string): Option<string>
  {
    LengthError(name, 2, NameRequired, NameTooShort)
  }

  /** The required check trims; the shape check tests the untrimmed value. */
  function EmailError(email: string): Option<string>
  {
    if Trim(email) == [] then Some(EmailRequired)
    else if !IsEmailShape(email) then Some(EmailInvalid)
    else None
  }

  function MessageError(message: string): Option<string>
  {
    LengthError(message, 10, MessageRequired, MessageTooShort)
  }

  /** The map with one entry for each present error. */
  function ErrorMap(nameError: Option<string>, emailError: Option<string>, messageError: Option<string>): map<Field, string>
  {
    map f | f in {Name, Email, Message} && Pick(f, nameError, emailError, messageError).Some? ::
      Pick(f, nameError, emailError, messageError).value
  }

  function Pick<T>(f: Field, forName: T, forEmail: T, forMessage: T): T
  {
    match f
    case Name => forName
    case Email => forEmail
    case Message => forMessage
  }

  /** `newErrors` as `validateForm` leaves it: one entry per failing field. */
  function ValidationErrors(name: string, email: string, message: string): map<Field, string>
  {
    ErrorMap(NameError(name), EmailError(email), MessageError(message))
  }

  /** Record `e` under `f` when it is present. */
  function Record(m: map<Field, string>, f: Field, e: Option<string>): map<Field, string>
  {
    if e.Some? then m[f := e.value] else m
  }

  /** Recording the three errors one after the other builds the error map. */
  lemma RecordAll(nameError: Option<string>, emailError: Option<string>, messageError: Option<string>)
    ensures Record(Record(Record(map[], Name, nameError), Email, emailError), Message, messageError)
      == ErrorMap(nameError, emailError, messageError)
  {
    var m := Record(Record(Record(map[], Name, nameError), Email, emailError), Message, messageError);
    var e := ErrorMap(nameError, emailError, messageError);
    assert forall f :: f in m <==> f in e;
  }

  /** Every message the form can record is non-empty. */
  lemma ErrorMessagesNonEmpty(name: string, email: string, message: string)
    ensures forall f :: f in ValidationErrors(name, email, message) ==>
      ValidationErrors(name, email, message)[f] != ""
  {
    var ne, ee, me := NameError(name), EmailError(email), MessageError(message);
    assert |NameRequired| > 0 && |NameTooShort| > 0;
    assert |EmailRequired| > 0 && |EmailInvalid| > 0;
    assert |MessageRequired| > 0 && |MessageTooShort| > 0;
    RecordedValuesNonEmpty(ne, ee, me);
  }

  /** An error map built from non-empty messages holds only non-empty messages. */
  lemma RecordedValuesNonEmpty(nameError: Option<string>, emailError: Option<string>, messageError: Option<string>)
    requires nameError.Some? ==> nameError.value != ""
    requires emailError.Some? ==> emailError.value != ""
    requires messageError.Some? ==> messageError.value != ""
    ensures forall f :: f in ErrorMap(nameError, emailError, messageError) ==>
      ErrorMap(nameError, emailError, messageError)[f] != ""
  {
  }

  /** The name rule by cases: blank, one significant character, or accepted. */
  lemma NameRule(name: string)
    ensures NameError(name) == Some(NameRequired) <==> Blank(name)
    ensures NameError(name) == Some(NameTooShort) <==> Utf16Length(Trim(name)) == 1
    ensures NameError(name) == None <==> Utf16Length(Trim(name)) >= 2
  {
    TrimEmptyIffBlank(name);
    Utf16LengthBounds(Trim(name));
  }

  /** The message rule by cases: blank, under ten significant characters, or accepted. */
  lemma MessageRule(message: string)
    ensures MessageError(message) == Some(MessageRequired) <==> Blank(message)
    ensures MessageError(message) == Some(MessageTooShort) <==> 1 <= Utf16Length(Trim(message)) < 10
    ensures MessageError(message) == None <==> Utf16Length(Trim(message)) >= 10
  {
    TrimEmptyIffBlank(message);
    Utf16LengthBounds(Trim(message));
  }

  /** The email rule: blank addresses are missing, and otherwise the address
      is accepted exactly when the whole untrimmed string matches the pattern. */
  lemma EmailRule(email: string)
    ensures EmailError(email) == Some(EmailRequired) <==> Blank(email)
    ensures EmailError(email) == None <==> MatchesEmailPattern(email)
    ensures EmailError(email) == Some(EmailInvalid) <==> !Blank(email) && !MatchesEmailPattern(email)
  {
    TrimEmptyIffBlank(email);
    EmailShapeIffPattern(email);
    if MatchesEmailPattern(email) {
      EmailPatternHasNoEdgeSpace(email);
    }
  }

  /** Leading or trailing whitespace around an otherwise well-formed address
      makes it invalid rather than missing. */
  lemma PaddedEmailInvalid(email: string)
    requires !Blank(email)
    requires IsSpace(email[0]) || IsSpace(email[|email| - 1])
    ensures EmailError(email) == Some(EmailInvalid)
  {
    EmailRule(email);
    if MatchesEmailPattern(email) {
      EmailPatternHasNoEdgeSpace(email);
    }
  }

  /** The map holds an entry for a field exactly when that field fails, with
      that field's message, and nothing else. */
  lemma ErrorsPerField(name: string, email: string, message: string)
    ensures var errs := ValidationErrors(name, email, message);
      && (Name in errs <==> !(Utf16Length(Trim(name)) >= 2))
      && (Email in errs <==> !MatchesEmailPattern(email))
      && (Message in errs <==> !(Utf16Length(Trim(message)) >= 10))
      && (Name in errs ==> Some(errs[Name]) == NameError(name))
      && (Email in errs ==> Some(errs[Email]) == EmailError(email))
      && (Message in errs ==> Some(errs[Message]) == MessageError(message))
  {
    NameRule(name);
    EmailRule(email);
    MessageRule(message);
  }

  /** `validateForm` returns true exactly when all three rules accept. */
  lemma ValidIffAllRulesPass(name: string, email: string, message: string)
    ensures ValidationErrors(name, email, message) == map[] <==>
      Utf16Length(Trim(name)) >= 2 && MatchesEmailPattern(email) && Utf16Length(Trim(message)) >= 10
  {
    ErrorsPerField(name, email, message);
    var errs := ValidationErrors(name, email, message);
    if errs != map[] {
      var f :| f in errs;
    }
  }

  /** A string with no whitespace at either end trims to itself. */
  lemma TrimUnpadded(s: string)
    requires s != [] && !IsSpace(s[0]) && !IsSpace(s[|s| - 1])
    ensures Trim(s) == s
  {
    assert TrimStart(s) == s;
    assert TrimEnd(s) == s;
  }

  /** Name "A", email "x" and an empty message give exactly three errors:
      name too short, email malformed, message missing. */
  lemma ThreeErrorsExample(name: string, email: string, message: string)
    requires name == "A" && email == "x" && message == ""
    ensures ValidationErrors(name, email, message) ==
      map[Name := NameTooShort, Email := EmailInvalid, Message := MessageRequired]
  {
    TrimUnpadded(name);
    TrimUnpadded(email);
    assert name[1..] == [] && Utf16Length(name) == 1;
    assert NameError(name) == Some(NameTooShort);
    assert EmailError(email) == Some(EmailInvalid);
    assert MessageError(message) == Some(MessageRequired);
  }

  /** The length rule counts UTF-16 code units as JavaScript does: a name of
      one character outside the Basic Multilingual Plane is long enough. */
  lemma AstralNameAccepted(name: string)
    requires name == "\U{1F600}"
    ensures NameError(name) == None
  {
    TrimUnpadded(name);
  }

  /** Which continuation of an accepted submission is still outstanding. */
  datatype Pending = Idle | AwaitingSend | AwaitingReset

  class ContactFormState {
    var name: string
    var email: string
    var message: string
    var errors: map<Field, string>
    var isSubmitting: bool
    var isSubmitted: bool
    var pending: Pending

    /** The flags mirror the outstanding continuation, and every stored
        error is a non-empty message. */
    ghost predicate Valid()
      reads this
    {
      && (isSubmitting <==> pending == AwaitingSend)
      && (isSubmitted <==> pending == AwaitingReset)
      && (forall f :: f in errors ==> errors[f] != "")
    }

    function Value(f: Field): string
      reads this
    {
      match f
      case Name => name
      case Email => email
      case Message => message
    }

    constructor ()
      ensures Valid()
      ensures name == "" && email == "" && message == ""
      ensures errors == map[] && !isSubmitting && !isSubmitted && pending == Idle
    {
      name, email, message := "", "", "";
      errors := map[];
      isSubmitting, isSubmitted := false, false;
      pending := Idle;
    }

    /** `validateForm`: replaces the error map with one computed from the
        current fields and reports whether it is empty. */
    method ValidateForm() returns (valid: bool)
      requires Valid()
      modifies this`errors
      ensures Valid()
      ensures errors == ValidationErrors(name, email, message)
      ensures valid <==> Utf16Length(Trim(name)) >= 2 && MatchesEmailPattern(email) && Utf16Length(Trim(message)) >= 10
    {
      var newErrors: map<Field, string> := map[];
      var nameError := NameError(name);
      if nameError.Some? {
        newErrors := newErrors[Name := nameError.value];
      }
      var emailError := EmailError(email);
      if emailError.Some? {
        newErrors := newErrors[Email := emailError.value];
      }
      var messageError := MessageError(message);
      if messageError.Some? {
        newErrors := newErrors[Message := messageError.value];
      }
      RecordAll(nameError, emailError, messageError);
      ValidIffAllRulesPass(name, email, message);
      ErrorMessagesNonEmpty(name, email, message);
      errors := newErrors;
      valid := errors == map[];
    }

    /** `handleChange`: store the new value of one field and clear that
        field's error, leaving the rest of the state alone. */
    method HandleChange(f: Field, value: string)
      requires Valid()
      modifies this`name, this`email, this`message, this`errors
      ensures Valid()
      ensures Value(f) == value
      ensures forall g :: g != f ==> Value(g) == old(Value(g))
      ensures errors == old(errors) - {f}
    {
      match f {
        case Name => name := value;
        case Email => email := value;
        case Message => message := value;
      }
      if f in errors && errors[f] != "" {
        errors := errors - {f};
      }
    }

    /** `handleSubmit` up to its first `await`: validate, and only if the form
        is valid enter the submitting state. */
    method HandleSubmit() returns (accepted: bool)
      requires Valid() && pending == Idle
      modifies this`errors, this`isSubmitting, this`pending
      ensures Valid()
      ensures errors == ValidationErrors(name, email, message)
      ensures accepted <==> errors == map[]
      ensures accepted ==> isSubmitting && pending == AwaitingSend
      ensures !accepted ==> !isSubmitting && pending == Idle
      ensures isSubmitted == old(isSubmitted)
    {
      accepted := ValidateForm();
      ValidIffAllRulesPass(name, email, message);
      if accepted {
        isSubmitting := true;
        pending := AwaitingSend;
      }
    }

    /** The simulated send resolves: leave the submitting state and show the
        confirmation. */
    method SendCompleted()
      requires Valid() && pending == AwaitingSend
      modifies this`isSubmitting, this`isSubmitted, this`pending
      ensures Valid()
      ensures !isSubmitting && isSubmitted && pending == AwaitingReset
    {
      isSubmitting := false;
      isSubmitted := true;
      pending := AwaitingReset;
    }

    /** The confirmation timer fires: clear all three fields and hide the
        confirmation. */
    method ResetTimerFired()
      requires Valid() && pending == AwaitingReset
      modifies this`name, this`email, this`message, this`isSubmitted, this`pending
      ensures Valid()
      ensures name == "" && email == "" && message == ""
      ensures !isSubmitted && !isSubmitting && pending == Idle
    {
      name, email, message := "", "", "";
      isSubmitted := false;
      pending := Idle;
    }
  }

  /** A whole accepted submission: submitting, then submitted, then reset to
      an empty form with no errors. */
  method SubmitToCompletion(form: ContactFormState) returns (accepted: bool)
    requires form.Valid() && form.pending == Idle
    modifies form`name, form`email, form`message, form`errors
    modifies form`isSubmitting, form`isSubmitted, form`pending
    ensures form.Valid()
    ensures accepted <==> ValidationErrors(old(form.name), old(form.email), old(form.message)) == map[]
    ensures accepted ==> form.name == "" && form.email == "" && form.message == "" &&
                         form.errors == map[] && !form.isSubmitting && !form.isSubmitted
    ensures !accepted ==> form.name == old(form.name) && form.email == old(form.email) &&
                          form.message == old(form.message)
    ensures !accepted ==> form.errors == ValidationErrors(old(form.name), old(form.email), old(form.message)) &&
                          !form.isSubmitting && form.isSubmitted == old(form.isSubmitted)
  {
    accepted := form.HandleSubmit();
    if accepted {
      assert form.isSubmitting && !form.isSubmitted;
      form.SendCompleted();
      assert !form.isSubmitting && form.isSubmitted;
      form.ResetTimerFired();
    }
  }
}
