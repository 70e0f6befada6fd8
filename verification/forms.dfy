/** The React pages' client-side form state: a field-error map that the
    validators fill and typing clears, and the code step that follows a
    valid submission. */
module FormErrors {
  import opened Text

  /** `Record<string, string>` of field messages, keyed here by each page's
      field type; an empty message shows nothing. */
  type Errors<K> = map<K, string>

  /** `errors[name]` is truthy: the field shows a message. */
  predicate Shows<K(!new)>(errs: Errors<K>, name: K) {
    name in errs && errs[name] != ""
  }

  /** No field shows a message. */
  predicate Quiet<K(!new)>(errs: Errors<K>) {
    forall k :: k in errs ==> errs[k] == ""
  }

  /** `handleInputChange`'s error half: typing into a field blanks its
      message, if it shows one, and leaves every other field alone. */
  function ClearOnInput<K(!new)>(errs: Errors<K>, name: K): (errs': Errors<K>)
    ensures !Shows(errs', name)
    ensures forall k :: k != name ==> (k in errs' <==> k in errs)
    ensures forall k :: k in errs && k != name ==> errs'[k] == errs[k]
    ensures name in errs' <==> name in errs
  {
    if Shows(errs, name) then errs[name := ""] else errs
  }

  /** Typing into the same field twice clears no more than once, and
      clearing every shown field leaves the form quiet. */
  lemma ClearOnInputIdempotent<K(!new)>(errs: Errors<K>, name: K)
    ensures ClearOnInput(ClearOnInput(errs, name), name) == ClearOnInput(errs, name)
    ensures (forall k :: k != name ==> !Shows(errs, k)) ==> Quiet(ClearOnInput(errs, name))
  {
    var e' := ClearOnInput(errs, name);
    if forall k :: k != name ==> !Shows(errs, k) {
      forall k | k in e' ensures e'[k] == "" {
        if k != name {
          assert !Shows(errs, k);
        }
      }
    }
  }

  /** After a code step: either the field messages were replaced, or the
      router went to `path`. */
  datatype CodeStep<K> = Refused(errors: Errors<K>) | Navigate(path: string)

  const CodeRequired: string := "Verification code is required"

  /** The code handlers of both pages: a blank code replaces the whole
      error map with one message under `field`; any other code goes on to
      the dashboard. The code's value is never compared with anything. */
  function CodeGate<K(!new)>(code: string, field: K): (r: CodeStep<K>)
    ensures r.Navigate? <==> !IsBlank(code)
    ensures r.Navigate? ==> r.path == "/parent-dashboard"
    ensures r.Refused? ==> r.errors.Keys == {field} && r.errors[field] == CodeRequired
  {
    if Trim(code) == [] then Refused(map[field := CodeRequired]) else Navigate("/parent-dashboard")
  }

  /** Messages the e-mail checks of the sign-up and parent-login pages
      produce: a blank address is required, otherwise it must contain the
      pattern `\S+@\S+\.\S+`. */
  function EmailMessage(email: string): (m: string)
    ensures m == "" <==> LooksLikeEmail(email)
    ensures IsBlank(email) ==> m == "Email is required"
    ensures !IsBlank(email) && !LooksLikeEmail(email) ==> m == "Please enter a valid email address"
  {
    EmailNotBlank(email);
    if Trim(email) == [] then "Email is required"
    else if !LooksLikeEmail(email) then "Please enter a valid email address"
    else ""
  }

  /** Anything the e-mail pattern matches has a non-space character, so the
      "required" branch never hides a well-formed address. */
  lemma EmailNotBlank(s: string)
    ensures LooksLikeEmail(s) ==> !IsBlank(s)
  {
    if LooksLikeEmail(s) {
      var i, j :| 0 <= i < j < |s| && EmailMatchAt(s, i, j);
      assert !IsWhitespace(s[i - 1]);
    }
  }

  /** The error map of a validator that runs one check per field of
      `fields`: a field is present exactly when its check has a message. */
  function Collect<K(!new)>(fields: set<K>, message: K -> string): (errs: Errors<K>)
    ensures errs.Keys <= fields
    ensures forall k :: k in fields ==> (k in errs <==> message(k) != "")
    ensures forall k :: k in errs ==> errs[k] == message(k) && Shows(errs, k)
  {
    map k | k in fields && message(k) != "" :: message(k)
  }
}

/** `SignUp.tsx`: the parent registration form. */
module SignUpPage {
  import opened Text
  import opened FormErrors

  datatype Form = Form(fullName: string, email: string, password: string, confirmPassword: string, terms: bool)

  /** The keys of the page's error map: `fullName`, `email`, `password`,
      `confirmPassword`, `terms` and `emailVerificationCode`. */
  datatype Field = FullName | Email | Password | ConfirmPassword | Terms | EmailVerificationCode

  const Checked: set<Field> := {FullName, Email, Password, ConfirmPassword, Terms}

  const MinPasswordLength: nat := 8

  function PasswordMessage(password: string): (m: string)
    ensures m == "" <==> |password| >= MinPasswordLength
    ensures password == "" ==> m == "Password is required"
    ensures password != "" && |password| < MinPasswordLength ==> m == "Password must be at least 8 characters long"
  {
    if password == "" then "Password is required"
    else if |password| < MinPasswordLength then "Password must be at least 8 characters long"
    else ""
  }

  /** `validateForm`: every check runs and each failing one leaves one
      message under its field's name. */
  function Validate(f: Form): (errs: Errors<Field>)
    ensures errs.Keys <= Checked
    ensures forall k :: k in errs ==> Shows(errs, k)
    ensures FullName in errs <==> IsBlank(f.fullName)
    ensures Email in errs <==> !LooksLikeEmail(f.email)
    ensures Password in errs <==> |f.password| < MinPasswordLength
    ensures ConfirmPassword in errs <==> f.password != f.confirmPassword
    ensures Terms in errs <==> !f.terms
    ensures FullName in errs ==> errs[FullName] == "Full name is required"
    ensures Email in errs ==> errs[Email] == EmailMessage(f.email)
    ensures Password in errs ==> errs[Password] == PasswordMessage(f.password)
    ensures ConfirmPassword in errs ==> errs[ConfirmPassword] == "Passwords do not match"
    ensures Terms in errs ==> errs[Terms] == "You must agree to the terms and conditions"
  {
    Collect(Checked, field => Message(f, field))
  }

  /** The message of one field's check, "" when it passes. */
  function Message(f: Form, field: Field): string {
    match field
    case FullName => if Trim(f.fullName) == [] then "Full name is required" else ""
    case Email => EmailMessage(f.email)
    case Password => PasswordMessage(f.password)
    case ConfirmPassword => if f.password != f.confirmPassword then "Passwords do not match" else ""
    case Terms => if !f.terms then "You must agree to the terms and conditions" else ""
    case EmailVerificationCode => ""
  }

  /** The form is accepted exactly when every field is well-formed. */
  predicate Acceptable(f: Form) {
    && !IsBlank(f.fullName)
    && LooksLikeEmail(f.email)
    && |f.password| >= MinPasswordLength
    && f.password == f.confirmPassword
    && f.terms
  }

  lemma ValidateAccepts(f: Form)
    ensures Validate(f) == map[] <==> Acceptable(f)
  {
    var errs := Validate(f);
    if !Acceptable(f) {
      assert FullName in errs || Email in errs || Password in errs
             || ConfirmPassword in errs || Terms in errs;
    }
  }

  /** The page after a submit: the error map and whether the code form is
      shown. */
  datatype View = View(errors: Errors<Field>, verifying: bool)

  /** `handleSubmit`: the code form appears only for an acceptable form. */
  function Submit(f: Form): (v: View)
    ensures v.verifying <==> Acceptable(f)
    ensures v.verifying ==> v.errors == map[]
    ensures !v.verifying ==> !Quiet(v.errors)
  {
    var errs := Validate(f);
    ValidateAccepts(f);
    if errs != map[] then
      assert exists k :: k in errs;
      View(errs, false)
    else View(errs, true)
  }

  /** `handleEmailVerification`. */
  function VerifyEmailCode(code: string): (r: CodeStep<Field>)
    ensures r.Navigate? <==> !IsBlank(code)
    ensures r.Refused? ==> r.errors == map[EmailVerificationCode := CodeRequired]
  {
    CodeGate(code, EmailVerificationCode)
  }
}

/** `ParentLogin.tsx`: the parent sign-in form and its MFA step. */
module ParentLoginPage {
  import opened Text
  import opened FormErrors

  datatype Form = Form(email: string, password: string, rememberMe: bool)

  /** The keys of the page's error map: `email`, `password` and `mfaCode`. */
  datatype Field = Email | Password | MfaCode

  /** `validateForm`: the e-mail is trimmed for the required check, the
      password is not trimmed at all. */
  function Validate(f: Form): (errs: Errors<Field>)
    ensures errs.Keys <= {Email, Password}
    ensures forall k :: k in errs ==> Shows(errs, k)
    ensures Email in errs <==> !LooksLikeEmail(f.email)
    ensures Password in errs <==> f.password == ""
    ensures Email in errs ==> errs[Email] == EmailMessage(f.email)
    ensures Password in errs ==> errs[Password] == "Password is required"
  {
    Collect({Email, Password}, field => Message(f, field))
  }

  /** The message of one field's check, "" when it passes. */
  function Message(f: Form, field: Field): string {
    match field
    case Email => EmailMessage(f.email)
    case Password => if f.password == "" then "Password is required" else ""
    case MfaCode => ""
  }

  /** The page after a submit: the error map and whether the MFA form is
      shown. */
  datatype View = View(errors: Errors<Field>, showMfa: bool)

  /** `handleSubmit`: no credential is checked; any well-formed form moves
      on to the MFA step. `rememberMe` plays no part. */
  function Submit(f: Form): (v: View)
    ensures v.showMfa <==> LooksLikeEmail(f.email) && f.password != ""
    ensures v.showMfa ==> v.errors == map[]
    ensures !v.showMfa ==> !Quiet(v.errors)
  {
    var errs := Validate(f);
    if errs != map[] then
      assert Email in errs || Password in errs;
      View(errs, false)
    else
      assert Email !in errs && Password !in errs;
      View(errs, true)
  }

  /** `handleMFAVerification`. */
  function VerifyMfaCode(code: string): (r: CodeStep<Field>)
    ensures r.Navigate? <==> !IsBlank(code)
    ensures r.Refused? ==> r.errors == map[MfaCode := CodeRequired]
  {
    CodeGate(code, MfaCode)
  }
}

/** `StudentLogin.tsx`: the student sign-in form. */
module StudentLoginPage {
  import opened Text
  import opened FormErrors

  datatype Form = Form(username: string, password: string)

  /** The keys of the page's error map: `username` and `password`. */
  datatype Field = Username | Password

  /** `validateForm`: the username is trimmed, the password is not. */
  function Validate(f: Form): (errs: Errors<Field>)
    ensures forall k :: k in errs ==> Shows(errs, k)
    ensures Username in errs <==> IsBlank(f.username)
    ensures Password in errs <==> f.password == ""
    ensures Username in errs ==> errs[Username] == "Username is required"
    ensures Password in errs ==> errs[Password] == "Password is required"
  {
    Collect({Username, Password}, field => Message(f, field))
  }

  /** The message of one field's check, "" when it passes. */
  function Message(f: Form, field: Field): string {
    match field
    case Username => if Trim(f.username) == [] then "Username is required" else ""
    case Password => if f.password == "" then "Password is required" else ""
  }

  /** Where a submit leaves the page: still on the form with its messages,
      or on the student dashboard. */
  function Submit(f: Form): (r: CodeStep<Field>)
    ensures r.Navigate? <==> !IsBlank(f.username) && f.password != ""
    ensures r.Navigate? ==> r.path == "/student-dashboard"
    ensures r.Refused? ==> r.errors == Validate(f) && !Quiet(r.errors)
  {
    var errs := Validate(f);
    if errs != map[] then
      assert Username in errs || Password in errs;
      Refused(errs)
    else
      assert Username !in errs && Password !in errs;
      Navigate("/student-dashboard")
  }

  /** A password of spaces passes the check a username of spaces fails. */
  lemma SpacesAreAPasswordButNotAUsername()
    ensures Submit(Form("kid", "   ")).Navigate?
    ensures Submit(Form("   ", "secret")).Refused?
  {
    assert !IsBlank("kid") by { assert !IsWhitespace("kid"[0]); }
    assert IsBlank("   ");
  }
}
