/** The sign-up form: field edits, and the submit decision that checks the
    terms box, then the password confirmation, before calling the service. */
module Signup {
  import opened PolicyTypes

  /** The form's state; `error` is the message shown under the form, if any. */
  datatype SignupForm = SignupForm(
    name: string,
    email: string,
    password: string,
    cpassword: string,
    loading: bool,
    error: Option<string>,
    acceptedTerms: bool)

  /** The state the form mounts with: all fields empty, terms not accepted. */
  const Mounted := SignupForm("", "", "", "", false, None, false)

  const TermsMessage := "You must accept the terms and conditions to proceed."
  const MismatchMessage := "Passwords do not match."
  const FailurePrefix := "Signup failed: "

  /** A field edit: the input's name picks the field; an unknown name changes nothing. */
  function HandleInputChange(f: SignupForm, inputName: string, value: string): (r: SignupForm)
    ensures inputName == "email" ==> r == f.(email := value)
    ensures inputName == "name" ==> r == f.(name := value)
    ensures inputName == "password" ==> r == f.(password := value)
    ensures inputName == "cpassword" ==> r == f.(cpassword := value)
    ensures inputName !in {"email", "name", "password", "cpassword"} ==> r == f
  {
    if inputName == "email" then f.(email := value)
    else if inputName == "name" then f.(name := value)
    else if inputName == "password" then f.(password := value)
    else if inputName == "cpassword" then f.(cpassword := value)
    else f
  }

  /** The terms checkbox. */
  function HandleTermsChange(f: SignupForm, checked: bool): (r: SignupForm)
    ensures r.acceptedTerms == checked
    ensures r.(acceptedTerms := f.acceptedTerms) == f
  {
    f.(acceptedTerms := checked)
  }

  /** How the sign-up call ended: it returned, it threw an `Error` with a
      message, it threw a string, or it threw some other value. */
  datatype SignupReply = Registered | ThrewError(message: string) | ThrewString(text: string) | ThrewOther

  /** The result of a submit: the new form, whether the service was called,
      and whether the page moved on to the login page. */
  datatype SubmitResult = SubmitResult(form: SignupForm, called: bool, navigated: bool)

  /** The submit button. Terms not accepted: the terms message, no call.
      Passwords differ: the mismatch message, no call. Otherwise the error is
      cleared and the service called; a return moves on to login, a thrown
      `Error` shows "Signup failed: " and its message, a thrown string or
      other value shows nothing; the loading flag ends cleared either way. */
  function HandleSubmit(f: SignupForm, reply: SignupReply): (r: SubmitResult)
    ensures !f.acceptedTerms ==> r == SubmitResult(f.(error := Some(TermsMessage)), false, false)
    ensures f.acceptedTerms && f.cpassword != f.password ==>
              r == SubmitResult(f.(error := Some(MismatchMessage)), false, false)
    ensures r.called <==> f.acceptedTerms && f.cpassword == f.password
    ensures r.called ==> !r.form.loading && r.form == f.(loading := false, error := r.form.error)
    ensures r.navigated <==> r.called && reply.Registered?
    ensures r.called && reply.ThrewError? ==> r.form.error == Some(FailurePrefix + reply.message)
    ensures r.called && !reply.ThrewError? ==> r.form.error.None?
  {
    if !f.acceptedTerms then SubmitResult(f.(error := Some(TermsMessage)), false, false)
    else if f.cpassword == f.password then
      var pending := f.(loading := true, error := None);
      var settled :=
        match reply
        case ThrewError(message) => pending.(error := Some(FailurePrefix + message))
        case _ => pending;
      SubmitResult(settled.(loading := false), true, reply.Registered?)
    else SubmitResult(f.(error := Some(MismatchMessage)), false, false)
  }

  /** The terms check comes first: without accepted terms the outcome is the
      same whatever the passwords are. */
  lemma TermsCheckedFirst(f: SignupForm, password: string, cpassword: string, reply: SignupReply)
    requires !f.acceptedTerms
    ensures HandleSubmit(f.(password := password, cpassword := cpassword), reply).form.error == Some(TermsMessage)
    ensures !HandleSubmit(f.(password := password, cpassword := cpassword), reply).called
  {
  }

  /** A refused submit leaves the typed fields alone, and submitting again
      without any edit gives the same refusal. */
  lemma RefusalIsStable(f: SignupForm, reply: SignupReply, again: SignupReply)
    requires !(f.acceptedTerms && f.cpassword == f.password)
    ensures var r := HandleSubmit(f, reply);
            && r.form.name == f.name && r.form.email == f.email
            && r.form.password == f.password && r.form.cpassword == f.cpassword
            && HandleSubmit(r.form, again) == r
  {
  }

  /** The last edit to a field wins, and edits to different fields commute. */
  lemma LastEditWins(f: SignupForm, field: string, other: string, a: string, b: string, c: string)
    ensures HandleInputChange(HandleInputChange(f, field, a), field, b) == HandleInputChange(f, field, b)
    ensures field != other ==>
              HandleInputChange(HandleInputChange(f, field, a), other, c)
              == HandleInputChange(HandleInputChange(f, other, c), field, a)
  {
  }

  /** Ticking the box lets a submit through exactly when the passwords match;
      unticking it brings the terms refusal back. */
  lemma TermsBoxDecides(f: SignupForm, reply: SignupReply)
    ensures HandleSubmit(HandleTermsChange(f, true), reply).called <==> f.cpassword == f.password
    ensures HandleSubmit(HandleTermsChange(f, false), reply).form.error == Some(TermsMessage)
  {
  }

  /** Submitting the untouched form is refused with the terms message, without
      a call, and leaves every typed field empty. */
  lemma UntouchedFormRefused(reply: SignupReply)
    ensures HandleSubmit(Mounted, reply) == SubmitResult(Mounted.(error := Some(TermsMessage)), false, false)
  {
  }
}
