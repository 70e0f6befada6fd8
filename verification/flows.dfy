/** Properties of `AuthSystem` that span several operations: sign-up then
    verification, sign-in then MFA, resend, logout, and the expiry
    boundary. */
module AuthFlows {
  import opened Text
  import opened Codes
  import opened Store
  import opened Strength
  import opened Auth
  import opened PageGlue
  import SignUpPage

  /** The code `signUp` mails, entered before ten minutes have passed,
      stores the same user with `emailVerified` set and clears the pending
      record. */
  lemma SignUpThenVerify(st: Store, fullName: string, email: string, password: string,
                         now: nat, r: CodeOffset, digest: string -> string, later: nat)
    requires later <= now + EmailCodeLifetime
    ensures var s1 := SignUp(st, fullName, email, password, now, r, digest);
            var s2 := VerifyEmail(s1.store, s1.store[EmailVerificationKey].challenge.code, later);
            && s2.outcome == Done
            && EmailVerificationKey !in s2.store
            && s2.store[UserKey(email)] == UserRecord(s1.store[UserKey(email)].user.(emailVerified := true))
            && OnlyChanged(st, s2.store, {UserKey(email), EmailVerificationKey})
  {
    var s1 := SignUp(st, fullName, email, password, now, r, digest);
    assert ReadEmailChallenge(s1.store).Found?;
  }

  /** After sign-up and verification, the same password signs in and, since
      every new account has MFA on, asks for a code. */
  lemma VerifiedAccountSignsIn(st: Store, fullName: string, email: string, password: string,
                               now: nat, r: CodeOffset, digest: string -> string,
                               later: nat, r2: CodeOffset, tokens: Tokens)
    requires later <= now + EmailCodeLifetime
    ensures var s1 := SignUp(st, fullName, email, password, now, r, digest);
            var s2 := VerifyEmail(s1.store, s1.store[EmailVerificationKey].challenge.code, later);
            SignIn(s2.store, email, password, later, r2, digest, tokens).outcome
              == AwaitMfaCode("Verification code sent to " + email)
  {
    var s1 := SignUp(st, fullName, email, password, now, r, digest);
    var s2 := VerifyEmail(s1.store, s1.store[EmailVerificationKey].challenge.code, later);
    SignUpThenVerify(st, fullName, email, password, now, r, digest, later);
    assert ReadUser(s2.store, email).Found?;
  }

  /** A code is still accepted at the very instant of its expiry and refused
      one millisecond later, when the pending record is also dropped. */
  lemma ExpiryBoundary(st: Store, code: string)
    requires ReadEmailChallenge(st).Found? && ReadEmailChallenge(st).value.code == code
    requires ReadEmailChallenge(st).value.expiry >= 0
    ensures VerifyEmail(st, code, ReadEmailChallenge(st).value.expiry).outcome == Done
    ensures var late := VerifyEmail(st, code, ReadEmailChallenge(st).value.expiry + 1);
            late.outcome == Failed("Verification code has expired")
            && EmailVerificationKey !in late.store
  {
  }

  /** Once a new code has been sent, the previous one is refused and
      nothing changes. */
  lemma ResendRetiresOldCode(st: Store, now: nat, r: CodeOffset, later: nat)
    requires ReadEmailChallenge(st).Found?
    requires ReadEmailChallenge(st).value.code != NewCode(r)
    requires later <= now + EmailCodeLifetime
    ensures var s1 := ResendEmailVerification(st, now, r);
            VerifyEmail(s1.store, ReadEmailChallenge(st).value.code, later)
              == Step(Failed("Invalid verification code"), s1.store)
  {
    var s1 := ResendEmailVerification(st, now, r);
    assert ReadEmailChallenge(s1.store).Found?;
  }

  /** Signing in with MFA and then entering the mailed code in time logs in
      the account that signed in: the session snapshot carries its e-mail,
      both tokens are stored, and with a non-empty token the store is
      authenticated. */
  lemma SignInThenMfa(st: Store, email: string, password: string, now: nat, r: CodeOffset,
                      digest: string -> string, tokens: Tokens, later: nat)
    requires Consistent(st)
    requires CanSignIn(st, email, password, digest) && ReadUser(st, email).value.mfaEnabled
    requires TokenEncodable(ReadUser(st, email).value)
    requires later <= now + MfaCodeLifetime
    ensures var s1 := SignIn(st, email, password, now, r, digest, tokens);
            var s2 := VerifyMfa(s1.store, s1.store[PendingMfaKey].mfa.code, later, tokens);
            && s2.outcome == LoggedIn
            && PendingMfaKey !in s2.store
            && s2.store[CurrentUserKey] == CurrentUser(SnapshotOf(ReadUser(st, email).value))
            && s2.store[CurrentUserKey].snapshot.email == email
            && s2.store[TokenKey] == Token(tokens.access)
            && (tokens.access != "" ==> AuthenticatedCall(s2.store) == Yes)
  {
    var s1 := SignIn(st, email, password, now, r, digest, tokens);
    ConsistentRead(st, email);
    assert SameAt(st, s1.store, UserKey(email));
    assert ReadUser(s1.store, email) == ReadUser(st, email);
    assert ReadMfaChallenge(s1.store).Found?;
  }

  /** An MFA account whose id, e-mail or name has a character above U+00FF
      can never finish signing in: the right code, in time, still fails,
      and the pending challenge is gone. */
  lemma UnencodableAccountNeverFinishesMfa(st: Store, email: string, password: string, now: nat,
                                           r: CodeOffset, digest: string -> string, tokens: Tokens, later: nat)
    requires Consistent(st)
    requires CanSignIn(st, email, password, digest) && ReadUser(st, email).value.mfaEnabled
    requires !TokenEncodable(ReadUser(st, email).value)
    requires later <= now + MfaCodeLifetime
    ensures var s1 := SignIn(st, email, password, now, r, digest, tokens);
            var s2 := VerifyMfa(s1.store, s1.store[PendingMfaKey].mfa.code, later, tokens);
            && s1.outcome.AwaitMfaCode?
            && s2 == Step(Failed("MFA verification failed"), s1.store - {PendingMfaKey})
            && ReadMfaChallenge(s2.store).Missing?
  {
    var s1 := SignIn(st, email, password, now, r, digest, tokens);
    ConsistentRead(st, email);
    assert SameAt(st, s1.store, UserKey(email));
    assert ReadUser(s1.store, email) == ReadUser(st, email);
    assert ReadMfaChallenge(s1.store).Found?;
  }

  /** A name outside Latin-1, such as `Łukasz`, is one the token cannot
      carry. */
  lemma PolishNameIsUnencodable(u: User)
    requires u.fullName == "\U{141}ukasz"
    ensures !TokenEncodable(u)
  {
    assert u.fullName[0] as int == 0x141;
  }

  /** The token is stored as a raw string, so a JWT, which is no JSON,
      still counts as a token beside a readable session snapshot. */
  lemma RawTokenAuthenticates(sn: Snapshot)
    ensures AuthenticatedCall(map[TokenKey := Garbled, CurrentUserKey := CurrentUser(sn)]) == Yes
  {
  }

  /** A wrong MFA code creates no session. */
  lemma WrongMfaCodeNoSession(st: Store, code: string, now: nat, tokens: Tokens)
    requires !IsAuthenticated(st)
    requires ReadMfaChallenge(st).Found? && code != ReadMfaChallenge(st).value.code
    ensures !IsAuthenticated(VerifyMfa(st, code, now, tokens).store)
  {
    var s := VerifyMfa(st, code, now, tokens);
    assert SameAt(st, s.store, TokenKey) && SameAt(st, s.store, CurrentUserKey);
  }

  /** Logging out ends the session, and doing it twice is doing it once. */
  lemma LogoutEndsSession(st: Store)
    ensures AuthenticatedCall(Logout(st)) == No
    ensures Logout(Logout(st)) == Logout(st)
  {
  }

  /** Any completed login, through MFA or directly, is authenticated until
      logout. */
  lemma LoginThenLogout(st: Store, user: User, tokens: Tokens)
    requires tokens.access != "" && TokenEncodable(user)
    ensures AuthenticatedCall(CompleteLogin(st, user, tokens).store) == Yes
    ensures AuthenticatedCall(Logout(CompleteLogin(st, user, tokens).store)) == No
  {
  }

  /** As written, the login form sends an MFA account to the dashboard
      although the store holds no session. */
  lemma LoginFormSkipsMfa(st: Store, email: string, password: string, now: nat, r: CodeOffset,
                          digest: string -> string, tokens: Tokens)
    requires !IsAuthenticated(st)
    requires CanSignIn(st, email, password, digest) && ReadUser(st, email).value.mfaEnabled
    ensures var res := SubmitLogin(st, email, password, now, r, digest, tokens);
            && res.1 == Redirect(ParentDashboard)
            && !IsAuthenticated(res.0.store)
  {
    var s := SignIn(st, email, password, now, r, digest, tokens);
    assert SameAt(st, s.store, TokenKey) && SameAt(st, s.store, CurrentUserKey);
  }

  /** With the MFA step in place, the login form reaches the dashboard only
      with a session in the store. */
  lemma LoginRedirectHasSession(st: Store, email: string, password: string, now: nat, r: CodeOffset,
                                digest: string -> string, tokens: Tokens)
    requires tokens.access != ""
    ensures var res := SubmitLoginCorrected(st, email, password, now, r, digest, tokens);
            res.1 == Redirect(ParentDashboard) ==> AuthenticatedCall(res.0.store) == Yes
  {
  }

  /** A form for `A B` at `a@b.com` with the password `Abcdef1!` typed
      twice and the terms ticked is accepted and leaves a six-digit code
      pending. */
  lemma SignupScenario(st: Store, now: nat, r: CodeOffset, digest: string -> string)
    ensures var f := SignupForm("A B", "a@b.com", "Abcdef1!", "Abcdef1!", true);
            var res := SubmitSignup(st, f, now, r, digest);
            && res.errors == map[] && res.verifying
            && EmailVerificationKey in res.store && res.store[EmailVerificationKey].EmailVerification?
            && |res.store[EmailVerificationKey].challenge.code| == 6
  {
    ScenarioPasswordIsStrong();
  }

  /** The two sign-up forms judge passwords differently: the script page
      takes a short password with three character classes that the React
      page refuses, and the React page takes a long lower-case password
      that the script page calls too weak. */
  lemma SignupPagesDisagree()
    ensures CheckPasswordStrength("Ab1!").score >= 3
    ensures SignUpPage.PasswordMessage("Ab1!") != ""
    ensures CheckPasswordStrength("abcdefgh").score < 3
    ensures SignUpPage.PasswordMessage("abcdefgh") == ""
  {
    var p := "Ab1!";
    assert Satisfies(p, HasUpper) by { assert IsUpper(p[0]); }
    assert Satisfies(p, HasLower) by { assert IsLower(p[1]); }
    assert Satisfies(p, HasDigit) by { assert IsDigit(p[2]); }
    assert Satisfies(p, HasSpecial) by { assert IsSpecial(p[3]); }
    var q := "abcdefgh";
    forall i | 0 <= i < |q| ensures !IsUpper(q[i]) && !IsDigit(q[i]) && !IsSpecial(q[i]) {
      LetterIsPlain(q[i]);
    }
    assert !Satisfies(q, HasUpper) && !Satisfies(q, HasDigit) && !Satisfies(q, HasSpecial);
  }
}
