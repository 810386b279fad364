/**
 * The contact section: a three-field form, its client-side validator and
 * the submission state machine (idle, pending while the simulated request
 * is in flight, succeeded until the timed reset).
 */
module Contact {
  import opened Text

  /** The three inputs of the form, named by their `name` attribute. */
  datatype Field = Name | Email | Message

  /** `FormState`: the current text of each input. */
  datatype FormState = FormState(name: string, email: string, message: string)
  {
    function Get(f: Field): string
    {
      match f
      case Name => name
      case Email => email
      case Message => message
    }

    /** `{ ...prev, [f]: v }`: field `f` replaced, the other two kept. */
    function With(f: Field, v: string): (r: FormState)
      ensures r.Get(f) == v
      ensures forall g :: g != f ==> r.Get(g) == Get(g)
    {
      match f
      case Name => this.(name := v)
      case Email => this.(email := v)
      case Message => this.(message := v)
    }
  }

  /** The form as first mounted and as left by the timed reset. */
  const EmptyForm := FormState("", "", "")

  /** `FormErrors`: a message for each field that failed, no key for a field
      that passed. */
  type FormErrors = map<Field, string>

  const NameRequired := "Name is required"
  const EmailRequired := "Email is required"
  const EmailInvalid := "Email address is invalid"
  const MessageRequired := "Message is required"
  const MessageTooShort := "Message must be at least 10 characters"

  /** Shortest accepted message, counted on the untrimmed text. */
  const MinMessageLength := 10

  /** JavaScript truthiness of a string: only "" is falsy. */
  predicate Truthy(m: string)
  {
    m != ""
  }

  datatype Option<T> = None | Some(value: T)

  /** The name check of `validate`: an error exactly for an empty or
      all-whitespace name, and then "Name is required". */
  function NameError(name: string): (r: Option<string>)
    ensures r.Some? <==> AllSpace(name)
    ensures r.Some? ==> r.value == NameRequired
  {
    if IsBlank(name) then Some(NameRequired) else None
  }

  /** The e-mail check of `validate`: blank first, then the pattern on the
      raw (untrimmed) value. */
  function EmailError(email: string): (r: Option<string>)
    ensures AllSpace(email) ==> r == Some(EmailRequired)
    ensures !AllSpace(email) ==> (r.Some? <==> !MatchesEmailPattern(email))
    ensures !AllSpace(email) && r.Some? ==> r.value == EmailInvalid
  {
    if IsBlank(email) then Some(EmailRequired)
    else if !EmailPatternTest(email) then Some(EmailInvalid)
    else None
  }

  /** The message check of `validate`: blank first, then the length of the
      raw (untrimmed) value, so surrounding spaces count. */
  function MessageError(message: string): (r: Option<string>)
    ensures AllSpace(message) ==> r == Some(MessageRequired)
    ensures !AllSpace(message) ==> (r.Some? <==> |message| < MinMessageLength)
    ensures !AllSpace(message) && r.Some? ==> r.value == MessageTooShort
  {
    if IsBlank(message) then Some(MessageRequired)
    else if |message| < MinMessageLength then Some(MessageTooShort)
    else None
  }

  /** `newErrors.f = m` when a check produced `m`. */
  function Record(errors: FormErrors, f: Field, e: Option<string>): FormErrors
  {
    if e.Some? then errors[f := e.value] else errors
  }

  /** `validate` without its `setErrors` side effect: the errors of one form
      snapshot, recorded field by field in the order of the source. Only the
      three fields can have a key, and every message is truthy. */
  function ValidateForm(f: FormState): (errors: FormErrors)
    ensures forall g :: g in errors ==> Truthy(errors[g])
  {
    var afterName := Record(map[], Name, NameError(f.name));
    var afterEmail := Record(afterName, Email, EmailError(f.email));
    Record(afterEmail, Message, MessageError(f.message))
  }

  /** The name fails exactly when it is empty or only whitespace, and then with
      "Name is required". */
  lemma ValidateName(f: FormState)
    ensures Name in ValidateForm(f) <==> AllSpace(f.name)
    ensures Name in ValidateForm(f) ==> ValidateForm(f)[Name] == NameRequired
  {
  }

  /** A blank e-mail is "required"; otherwise it is "invalid" exactly when no
      substring of the raw value has the shape `\S+@\S+\.\S+`. */
  lemma ValidateEmail(f: FormState)
    ensures AllSpace(f.email) ==> Email in ValidateForm(f) && ValidateForm(f)[Email] == EmailRequired
    ensures !AllSpace(f.email) ==> (Email in ValidateForm(f) <==> !MatchesEmailPattern(f.email))
    ensures !AllSpace(f.email) && Email in ValidateForm(f) ==> ValidateForm(f)[Email] == EmailInvalid
  {
  }

  /** A blank message is "required"; otherwise it is "too short" exactly when
      its untrimmed length is under ten, so surrounding spaces count. */
  lemma ValidateMessage(f: FormState)
    ensures AllSpace(f.message) ==> Message in ValidateForm(f) && ValidateForm(f)[Message] == MessageRequired
    ensures !AllSpace(f.message) ==> (Message in ValidateForm(f) <==> |f.message| < MinMessageLength)
    ensures !AllSpace(f.message) && Message in ValidateForm(f) ==> ValidateForm(f)[Message] == MessageTooShort
  {
  }

  /** What a form must satisfy to be sent, stated without the validator. */
  ghost predicate Acceptable(f: FormState)
  {
    && !AllSpace(f.name)
    && !AllSpace(f.email) && MatchesEmailPattern(f.email)
    && !AllSpace(f.message) && |f.message| >= MinMessageLength
  }

  /** `validate` returns true (no keys) exactly for acceptable forms. */
  lemma ValidatePassesIff(f: FormState)
    ensures ValidateForm(f) == map[] <==> Acceptable(f)
  {
    ValidateName(f);
    ValidateEmail(f);
    ValidateMessage(f);
    if ValidateForm(f) != map[] {
      var g :| g in ValidateForm(f);
      assert g in {Name, Email, Message};
    }
  }

  /** Concrete e-mail values: "abc" has no match, "a@b.co" has one, and a
      match may sit inside surrounding spaces because the pattern is not
      anchored. */
  lemma EmailExamples()
    ensures !MatchesEmailPattern("abc")
    ensures MatchesEmailPattern("a@b.co")
    ensures MatchesEmailPattern(" x a@b.co y ")
  {
    assert !EmailPatternTest("abc");
    assert ShortestEmailMatch("a@b.co", 1, 3);
    assert EmailPatternTest("a@b.co");
    assert ShortestEmailMatch(" x a@b.co y ", 4, 6);
    assert EmailPatternTest(" x a@b.co y ");
  }

  /** The empty form fails all three checks with the "required" messages. */
  lemma ValidateEmptyForm()
    ensures ValidateForm(EmptyForm)
         == map[Name := NameRequired, Email := EmailRequired, Message := MessageRequired]
  {
  }

  /** A malformed address and a five-character message fail with the other
      two messages; the name passes. */
  lemma ValidateRejectsExample()
    ensures ValidateForm(FormState("Rohit", "abc", "hello"))
         == map[Email := EmailInvalid, Message := MessageTooShort]
  {
  }

  /** A ten-character message with a good address passes, and so does a
      message that reaches ten characters only with surrounding spaces. */
  lemma ValidateAcceptsExamples()
    ensures ValidateForm(FormState("Rohit", "a@b.co", "0123456789")) == map[]
    ensures ValidateForm(FormState("Rohit", "a@b.co", "   hi     ")) == map[]
  {
    EmailExamples();
    assert !IsSpace("Rohit"[0]);
    assert !IsSpace("a@b.co"[0]);
    assert !IsSpace("0123456789"[0]);
    assert !IsSpace("   hi     "[3]);
    ValidatePassesIff(FormState("Rohit", "a@b.co", "0123456789"));
    ValidatePassesIff(FormState("Rohit", "a@b.co", "   hi     "));
  }

  /** Where the submission is: `isSubmitting` marks the simulated request in
      flight, `submitSuccess` the confirmation panel. */
  datatype SubmissionStatus = Idle | Pending | Succeeded

  /** The component's state: the four `useState` slots. */
  class ContactSection {
    var formData: FormState
    var errors: FormErrors
    var isSubmitting: bool
    var submitSuccess: bool

    /** Pending and succeeded never overlap, every stored message is
        truthy, and past a successful validation the error map stays empty. */
    ghost predicate Valid()
      reads this
    {
      && !(isSubmitting && submitSuccess)
      && (forall g :: g in errors ==> Truthy(errors[g]))
      && (isSubmitting || submitSuccess ==> errors == map[])
    }

    /** The tri-state submission status the two flags encode. */
    function Status(): (s: SubmissionStatus)
      reads this
      requires Valid()
      ensures s == Pending <==> isSubmitting
      ensures s == Succeeded <==> submitSuccess
    {
      if isSubmitting then Pending else if submitSuccess then Succeeded else Idle
    }

    /** Mounting the section: empty fields, no errors, idle. */
    constructor ()
      ensures Valid()
      ensures formData == EmptyForm && errors == map[]
      ensures !isSubmitting && !submitSuccess
    {
      formData := EmptyForm;
      errors := map[];
      isSubmitting := false;
      submitSuccess := false;
    }

    /** `validate`: replaces the error map wholesale with the errors of the
        current fields and reports whether it has no keys. */
    method RunValidation() returns (ok: bool)
      modifies this`errors
      ensures errors == ValidateForm(formData)
      ensures ok <==> errors.Keys == {}
    {
      var newErrors := ValidateForm(formData);
      errors := newErrors;
      ok := |newErrors.Keys| == 0;
    }

    /** `handleChange`: store the new text of field `f`; if `f` had an error,
        drop it (no re-validation). Nothing else changes. */
    method Change(f: Field, v: string)
      requires Valid()
      modifies this`formData, this`errors
      ensures Valid()
      ensures formData == old(formData).With(f, v)
      ensures errors == old(errors) - {f}
    {
      formData := formData.With(f, v);
      if f in errors && Truthy(errors[f]) {
        errors := errors - {f};
      }
    }

    /** `handleSubmit` up to its first await. The submit button is disabled
        while a submission is pending and the form is not shown on success, so
        it only runs from the idle state. An invalid form only gets its errors;
        a valid one starts the simulated request. */
    method Submit()
      requires Valid() && Status() == Idle
      modifies this`errors, this`isSubmitting
      ensures Valid() && formData == old(formData)
      ensures errors == ValidateForm(formData)
      ensures isSubmitting <==> errors == map[]
      ensures !submitSuccess
    {
      var ok := RunValidation();
      if !ok {
        return;
      }
      isSubmitting := true;
    }

    /** The 1500 ms simulated latency elapsing: the request "succeeds". */
    method LatencyElapsed()
      requires Valid() && Status() == Pending
      modifies this`isSubmitting, this`submitSuccess
      ensures Valid() && Status() == Succeeded
    {
      isSubmitting := false;
      submitSuccess := true;
    }

    /** The 3000 ms reset timer firing: fields emptied, confirmation hidden,
        errors left as they are (and so still empty). */
    method ResetElapsed()
      requires Valid() && Status() == Succeeded
      modifies this`formData, this`submitSuccess
      ensures Valid() && Status() == Idle
      ensures formData == EmptyForm && errors == map[]
    {
      formData := EmptyForm;
      submitSuccess := false;
    }
  }

  /** A whole successful run: submit an acceptable form, let the latency and
      the reset timer elapse, and the section is back to idle with an empty
      form and no errors. */
  method SubmitAndWait(c: ContactSection)
    requires c.Valid() && c.Status() == Idle && Acceptable(c.formData)
    modifies c
    ensures c.Valid() && c.Status() == Idle
    ensures c.formData == EmptyForm && c.errors == map[]
  {
    ValidatePassesIff(c.formData);
    c.Submit();
    c.LatencyElapsed();
    c.ResetElapsed();
  }
}
