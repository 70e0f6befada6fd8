/** The plain-script pages' handlers around `AuthSystem`: the sign-up form
    gate, the six-character check before a code is verified, `resendMFA`,
    and where the login form sends the user. */
module PageGlue {
  import opened Codes
  import opened Store
  import opened Strength
  import opened Auth

  /** The sign-up form's fields; `terms` is whether the box is ticked. */
  datatype SignupForm = SignupForm(
    fullName: string,
    email: string,
    password: string,
    confirmPassword: string,
    terms: bool)

  const ConfirmPasswordError: string := "confirmPasswordError"
  const TermsError: string := "termsError"
  const PasswordError: string := "passwordError"

  /** The field messages the submit handler writes. All three checks run;
      none stops the others. */
  function SignupErrors(f: SignupForm): (errs: map<string, string>)
    ensures errs.Keys <= {ConfirmPasswordError, TermsError, PasswordError}
    ensures ConfirmPasswordError in errs <==> f.password != f.confirmPassword
    ensures TermsError in errs <==> !f.terms
    ensures PasswordError in errs <==> CheckPasswordStrength(f.password).score < 3
    ensures ConfirmPasswordError in errs ==> errs[ConfirmPasswordError] == "Passwords do not match"
    ensures TermsError in errs ==> errs[TermsError] == "You must agree to the terms"
    ensures PasswordError in errs ==> errs[PasswordError] == "Password is too weak"
  {
    var e0: map<string, string> := map[];
    var e1 := if f.password != f.confirmPassword then e0[ConfirmPasswordError := "Passwords do not match"] else e0;
    var e2 := if !f.terms then e1[TermsError := "You must agree to the terms"] else e1;
    if !StrongEnough(f.password) then e2[PasswordError := "Password is too weak"] else e2
  }

  /** What a sign-up submission leaves behind: the field messages, the
      store, and whether the e-mail verification form is now shown. */
  datatype SignupSubmission = SignupSubmission(errors: map<string, string>, store: Store, verifying: bool)

  function SubmitSignup(st: Store, f: SignupForm, now: nat, r: CodeOffset,
                        digest: string -> string): (res: SignupSubmission)
    ensures res.errors == map[] <==>
            f.password == f.confirmPassword && f.terms && CheckPasswordStrength(f.password).score >= 3
    ensures res.errors != map[] ==> res.store == st && !res.verifying
    ensures res.errors == map[] ==>
            res.verifying && res.store == SignUp(st, f.fullName, f.email, f.password, now, r, digest).store
  {
    var errs := SignupErrors(f);
    if errs != map[] then
      SignupSubmission(errs, st, false)
    else
      assert ConfirmPasswordError !in errs && TermsError !in errs && PasswordError !in errs;
      var s := SignUp(st, f.fullName, f.email, f.password, now, r, digest);
      SignupSubmission(errs, s.store, s.outcome == AwaitEmailCode)
  }

  /** `verifyEmailCode`: a code that is not six characters long never
      reaches `verifyEmail`. */
  function SubmitEmailCode(st: Store, code: string, now: nat): (s: Step)
    ensures |code| != 6 ==> s == Step(Failed("Please enter a 6-digit code"), st)
    ensures |code| == 6 ==> s == VerifyEmail(st, code, now)
  {
    if |code| != 6 then Step(Failed("Please enter a 6-digit code"), st)
    else VerifyEmail(st, code, now)
  }

  /** The page's `verifyMFA`: the same six-character check before
      `AuthSystem.verifyMFA`. */
  function SubmitMfaCode(st: Store, code: string, now: nat, tokens: Tokens): (s: Step)
    ensures |code| != 6 ==> s == Step(Failed("Please enter a 6-digit code"), st)
    ensures |code| == 6 ==> s == VerifyMfa(st, code, now, tokens)
  {
    if |code| != 6 then Step(Failed("Please enter a 6-digit code"), st)
    else VerifyMfa(st, code, now, tokens)
  }

  /** `resendMFA`: renews the code and the five-minute expiry of the pending
      challenge and keeps its e-mail. An unparsable record throws out of the
      handler. */
  function ResendMfa(st: Store, now: nat, r: CodeOffset): (s: Step)
    ensures ReadMfaChallenge(st).Missing? ==>
            s == Step(Failed("No pending verification found. Please sign in again."), st)
    ensures ReadMfaChallenge(st).Unreadable? ==> s == Step(Crashed, st)
    ensures ReadMfaChallenge(st).Found? ==>
            && s.outcome == Done
            && PendingMfaKey in s.store && s.store[PendingMfaKey].PendingMfa?
            && s.store[PendingMfaKey].mfa.email == ReadMfaChallenge(st).value.email
            && s.store[PendingMfaKey].mfa.expiry == now + MfaCodeLifetime
            && WellFormedCode(s.store[PendingMfaKey].mfa.code)
            && OnlyChanged(st, s.store, {PendingMfaKey})
    ensures Consistent(st) ==> Consistent(s.store)
  {
    match ReadMfaChallenge(st)
    case Missing => Step(Failed("No pending verification found. Please sign in again."), st)
    case Unreadable => Step(Crashed, st)
    case Found(challenge) =>
      var renewed := challenge.(code := NewCode(r), expiry := now + MfaCodeLifetime);
      Step(Done, st[PendingMfaKey := PendingMfa(renewed)])
  }

  /** Where the login page goes after `signIn`. */
  datatype Screen = Redirect(page: string) | ShowMfaForm | ShowError(message: string)

  const ParentDashboard: string := "parentDashboard.html"

  /** The login form handler as written: every successful result, including
      `requiresMFA`, redirects to the dashboard. */
  function NextScreenAsWritten(o: Outcome): (v: Screen)
    ensures o.Succeeded() <==> v == Redirect(ParentDashboard)
    ensures o.Failed? ==> v == ShowError(o.error)
  {
    if o.Succeeded() then Redirect(ParentDashboard)
    else if o.Failed? then ShowError(o.error) else ShowError("")
  }

  /** The login form handler with the MFA step it was evidently meant to
      have: a `requiresMFA` result shows the code form. */
  function NextScreen(o: Outcome): (v: Screen)
    ensures v == ShowMfaForm <==> o.AwaitMfaCode?
    ensures v == Redirect(ParentDashboard) <==> o.Succeeded() && !o.AwaitMfaCode?
    ensures o.Failed? ==> v == ShowError(o.error)
  {
    if o.AwaitMfaCode? then ShowMfaForm
    else if o.Succeeded() then Redirect(ParentDashboard)
    else if o.Failed? then ShowError(o.error) else ShowError("")
  }

  /** The login form submission as written: `signIn`, then every success
      redirects to the dashboard, so the MFA form is never shown. */
  function SubmitLogin(st: Store, email: string, password: string, now: nat, r: CodeOffset,
                       digest: string -> string, tokens: Tokens): (res: (Step, Screen))
    ensures res.1 != ShowMfaForm
    ensures res.1 == Redirect(ParentDashboard) <==>
            CanSignIn(st, email, password, digest)
            && (ReadUser(st, email).value.mfaEnabled || TokenEncodable(ReadUser(st, email).value))
    ensures res.1.ShowError? <==> res.1 != Redirect(ParentDashboard)
    ensures res.0 == SignIn(st, email, password, now, r, digest, tokens)
  {
    var s := SignIn(st, email, password, now, r, digest, tokens);
    (s, NextScreenAsWritten(s.outcome))
  }

  /** The login form submission with the MFA step restored: the MFA form
      for an MFA account, the dashboard only after a completed login. */
  function SubmitLoginCorrected(st: Store, email: string, password: string, now: nat, r: CodeOffset,
                                digest: string -> string, tokens: Tokens): (res: (Step, Screen))
    ensures res.1 == ShowMfaForm <==> CanSignIn(st, email, password, digest)
                                       && ReadUser(st, email).value.mfaEnabled
    ensures res.1 == Redirect(ParentDashboard) <==>
            CanSignIn(st, email, password, digest)
            && !ReadUser(st, email).value.mfaEnabled && TokenEncodable(ReadUser(st, email).value)
    ensures res.1 == Redirect(ParentDashboard) ==> res.0.outcome == LoggedIn
    ensures res.1.ShowError? <==> !res.0.outcome.Succeeded()
    ensures res.0 == SignIn(st, email, password, now, r, digest, tokens)
  {
    var s := SignIn(st, email, password, now, r, digest, tokens);
    (s, NextScreen(s.outcome))
  }
}
