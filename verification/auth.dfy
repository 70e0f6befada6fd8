/** `AuthSystem`: sign-up with e-mail verification, sign-in with an MFA
    challenge, login completion and logout, each a transition of the store.
    The clock (`Date.now()`), the random code draw and the SHA-256 digest
    are parameters; the access and refresh tokens are opaque strings. */
module Auth {
  import opened Text
  import opened Codes
  import opened Store

  /** The constant appended to every password before digesting. */
  const Salt: string := "hapo_salt_2024"

  /** 10 minutes and 5 minutes, in milliseconds. */
  const EmailCodeLifetime: int := 10 * 60 * 1000
  const MfaCodeLifetime: int := 5 * 60 * 1000

  /** The keys `logout` removes. */
  const LogoutKeys: set<string> := {TokenKey, RefreshTokenKey, CurrentUserKey, PendingMfaKey}

  /** The two tokens `completeLogin` mints; their contents are not modelled. */
  datatype Tokens = Tokens(access: string, refresh: string)

  /** The result objects of the source, one variant per shape. */
  datatype Outcome =
    | Done                          // { success: true }
    | AwaitEmailCode                // { success: true, requiresEmailVerification: true }
    | AwaitMfaCode(message: string) // { success: true, requiresMFA: true, message }
    | LoggedIn                      // { success: true, requiresMFA: false }
    | Failed(error: string)         // { success: false, error }
    | Crashed                       // an exception nobody catches
  {
    predicate Succeeded() {
      !Failed? && !Crashed?
    }
  }

  datatype Step = Step(outcome: Outcome, store: Store)

  /** `hashPassword`: the digest of the password followed by the salt. */
  function HashPassword(digest: string -> string, password: string): string {
    digest(password + Salt)
  }

  /** The record `signUp` builds from the form. */
  function NewUser(fullName: string, email: string, passwordHash: string, now: nat): User {
    User("user_" + Decimal(now), fullName, email, passwordHash, false, true, now)
  }

  /** A code that is six decimal digits between 100000 and 999999. */
  predicate WellFormedCode(code: string) {
    |code| == 6 && AllDigits(code) && 100000 <= ValueOf(code) <= 999999
  }

  function SignUp(st: Store, fullName: string, email: string, password: string,
                  now: nat, r: CodeOffset, digest: string -> string): (s: Step)
    ensures s.outcome == AwaitEmailCode
    ensures UserKey(email) in s.store && s.store[UserKey(email)].UserRecord?
    ensures var u := s.store[UserKey(email)].user;
            && u.email == email && u.fullName == fullName
            && u.passwordHash == digest(password + Salt)
            && !u.emailVerified && u.mfaEnabled && u.createdAt == now
    ensures EmailVerificationKey in s.store && s.store[EmailVerificationKey].EmailVerification?
    ensures var c := s.store[EmailVerificationKey].challenge;
            && c.email == email
            && c.userData == s.store[UserKey(email)].user
            && c.expiry == now + EmailCodeLifetime
            && WellFormedCode(c.code)
    ensures OnlyChanged(st, s.store, {UserKey(email), EmailVerificationKey})
    ensures Consistent(st) ==> Consistent(s.store)
  {
    var user := NewUser(fullName, email, HashPassword(digest, password), now);
    var st1 := st[UserKey(email) := UserRecord(user)];
    var challenge := EmailChallenge(email, NewCode(r), now + EmailCodeLifetime, user);
    Step(AwaitEmailCode, st1[EmailVerificationKey := EmailVerification(challenge)])
  }

  /** What `signIn` demands before it issues anything: a readable stored user
      whose digest matches and whose e-mail is verified. */
  predicate CanSignIn(st: Store, email: string, password: string, digest: string -> string) {
    && ReadUser(st, email).Found?
    && ReadUser(st, email).value.passwordHash == digest(password + Salt)
    && ReadUser(st, email).value.emailVerified
  }

  function SnapshotOf(u: User): Snapshot {
    Snapshot(u.id, u.fullName, u.email)
  }

  /** Every character fits in one byte, as `btoa` demands. */
  predicate Latin1(s: string) {
    forall i :: 0 <= i < |s| ==> s[i] as int <= 0xFF
  }

  /** `generateJWT` puts the id, e-mail and name into the payload it hands
      to `btoa`; `JSON.stringify` keeps characters above U+00FF as they are,
      and `btoa` throws on them. */
  predicate TokenEncodable(u: User) {
    Latin1(u.id) && Latin1(u.email) && Latin1(u.fullName)
  }

  /** `completeLogin`: mints the access token first, then stores both tokens
      and the user snapshot. The minting throws, before any write, for a
      user the token cannot encode. */
  function CompleteLogin(st: Store, user: User, tokens: Tokens): (s: Step)
    ensures !TokenEncodable(user) ==> s == Step(Crashed, st)
    ensures TokenEncodable(user) ==>
            && s.outcome == LoggedIn
            && CurrentUserKey in s.store && s.store[CurrentUserKey] == CurrentUser(Snapshot(user.id, user.fullName, user.email))
            && TokenKey in s.store && s.store[TokenKey] == Token(tokens.access)
            && RefreshTokenKey in s.store && s.store[RefreshTokenKey] == Token(tokens.refresh)
            && OnlyChanged(st, s.store, SessionKeys)
    ensures Consistent(st) ==> Consistent(s.store)
  {
    if !TokenEncodable(user) then Step(Crashed, st)
    else
      var st1 := st[TokenKey := Token(tokens.access)];
      var st2 := st1[RefreshTokenKey := Token(tokens.refresh)];
      Step(LoggedIn, st2[CurrentUserKey := CurrentUser(SnapshotOf(user))])
  }

  function SignIn(st: Store, email: string, password: string, now: nat, r: CodeOffset,
                  digest: string -> string, tokens: Tokens): (s: Step)
    ensures s.outcome.Succeeded() <==>
            CanSignIn(st, email, password, digest)
            && (ReadUser(st, email).value.mfaEnabled || TokenEncodable(ReadUser(st, email).value))
    ensures !s.outcome.Succeeded() ==> s.store == st
    ensures ReadUser(st, email).Missing? ==> s.outcome == Failed("Invalid email or password")
    ensures ReadUser(st, email).Unreadable? ==> s.outcome == Failed("Sign in failed. Please try again.")
    ensures ReadUser(st, email).Found? && ReadUser(st, email).value.passwordHash != digest(password + Salt)
            ==> s.outcome == Failed("Invalid email or password")
    ensures ReadUser(st, email).Found? && ReadUser(st, email).value.passwordHash == digest(password + Salt)
            && !ReadUser(st, email).value.emailVerified
            ==> s.outcome == Failed("Please verify your email address before signing in")
    ensures CanSignIn(st, email, password, digest) && ReadUser(st, email).value.mfaEnabled ==>
            && s.outcome == AwaitMfaCode("Verification code sent to " + email)
            && PendingMfaKey in s.store && s.store[PendingMfaKey].PendingMfa?
            && s.store[PendingMfaKey].mfa.email == email
            && s.store[PendingMfaKey].mfa.expiry == now + MfaCodeLifetime
            && WellFormedCode(s.store[PendingMfaKey].mfa.code)
            && OnlyChanged(st, s.store, {PendingMfaKey})
    ensures CanSignIn(st, email, password, digest) && !ReadUser(st, email).value.mfaEnabled
            && TokenEncodable(ReadUser(st, email).value) ==>
            s == CompleteLogin(st, ReadUser(st, email).value, tokens)
    ensures CanSignIn(st, email, password, digest) && !ReadUser(st, email).value.mfaEnabled
            && !TokenEncodable(ReadUser(st, email).value) ==>
            s == Step(Failed("Sign in failed. Please try again."), st)
    ensures Consistent(st) ==> Consistent(s.store)
  {
    match ReadUser(st, email)
    case Missing => Step(Failed("Invalid email or password"), st)
    case Unreadable => Step(Failed("Sign in failed. Please try again."), st)
    case Found(user) =>
      if user.passwordHash != HashPassword(digest, password) then
        Step(Failed("Invalid email or password"), st)
      else if !user.emailVerified then
        Step(Failed("Please verify your email address before signing in"), st)
      else if user.mfaEnabled then
        var challenge := MfaChallenge(email, NewCode(r), now + MfaCodeLifetime);
        Step(AwaitMfaCode("Verification code sent to " + email), st[PendingMfaKey := PendingMfa(challenge)])
      else if !TokenEncodable(user) then
        // the throw inside completeLogin is caught by signIn
        Step(Failed("Sign in failed. Please try again."), st)
      else
        CompleteLogin(st, user, tokens)
  }

  /** A pending challenge accepts `code` at `now`: not yet expired (the
      comparison is strict, so the expiry instant itself still counts) and
      equal to the stored code. */
  predicate Accepts(code: string, storedCode: string, expiry: int, now: int) {
    now <= expiry && code == storedCode
  }

  function VerifyMfa(st: Store, code: string, now: nat, tokens: Tokens): (s: Step)
    ensures s.outcome.Succeeded() <==>
            && ReadMfaChallenge(st).Found?
            && Accepts(code, ReadMfaChallenge(st).value.code, ReadMfaChallenge(st).value.expiry, now)
            && ReadUser(st, ReadMfaChallenge(st).value.email).Found?
            && TokenEncodable(ReadUser(st, ReadMfaChallenge(st).value.email).value)
    ensures ReadMfaChallenge(st).Missing? ==> s == Step(Failed("No pending MFA verification"), st)
    ensures ReadMfaChallenge(st).Unreadable? ==> s == Step(Failed("MFA verification failed"), st)
    ensures ReadMfaChallenge(st).Found? && now > ReadMfaChallenge(st).value.expiry ==>
            && s.outcome == Failed("MFA code has expired")
            && PendingMfaKey !in s.store && OnlyChanged(st, s.store, {PendingMfaKey})
    ensures ReadMfaChallenge(st).Found? && now <= ReadMfaChallenge(st).value.expiry
            && code != ReadMfaChallenge(st).value.code
            ==> s == Step(Failed("Invalid verification code"), st)
    ensures s.outcome.Succeeded() ==>
            && s == CompleteLogin(st - {PendingMfaKey}, ReadUser(st, ReadMfaChallenge(st).value.email).value, tokens)
            && s.outcome == LoggedIn
            && PendingMfaKey !in s.store
            && CurrentUserKey in s.store
            && s.store[CurrentUserKey] == CurrentUser(SnapshotOf(ReadUser(st, ReadMfaChallenge(st).value.email).value))
            && TokenKey in s.store && s.store[TokenKey] == Token(tokens.access)
            && RefreshTokenKey in s.store && s.store[RefreshTokenKey] == Token(tokens.refresh)
            && OnlyChanged(st, s.store, SessionKeys + {PendingMfaKey})
    ensures ReadMfaChallenge(st).Found? && Accepts(code, ReadMfaChallenge(st).value.code, ReadMfaChallenge(st).value.expiry, now)
            && ReadUser(st, ReadMfaChallenge(st).value.email).Found?
            && !TokenEncodable(ReadUser(st, ReadMfaChallenge(st).value.email).value) ==>
            s == Step(Failed("MFA verification failed"), st - {PendingMfaKey})
    ensures ReadMfaChallenge(st).Found? && Accepts(code, ReadMfaChallenge(st).value.code, ReadMfaChallenge(st).value.expiry, now)
            && ReadUser(st, ReadMfaChallenge(st).value.email).Missing? ==>
            s == Step(Failed("MFA verification failed"), st - {PendingMfaKey})
    ensures ReadMfaChallenge(st).Found? && Accepts(code, ReadMfaChallenge(st).value.code, ReadMfaChallenge(st).value.expiry, now)
            && ReadUser(st, ReadMfaChallenge(st).value.email).Unreadable? ==>
            s == Step(Failed("MFA verification failed"), st)
    ensures s.outcome.Failed? ==> OnlyChanged(st, s.store, {PendingMfaKey})
    ensures Consistent(st) ==> Consistent(s.store)
  {
    match ReadMfaChallenge(st)
    case Missing => Step(Failed("No pending MFA verification"), st)
    case Unreadable => Step(Failed("MFA verification failed"), st)
    case Found(challenge) =>
      if now > challenge.expiry then
        Step(Failed("MFA code has expired"), st - {PendingMfaKey})
      else if code != challenge.code then
        Step(Failed("Invalid verification code"), st)
      else
        match ReadUser(st, challenge.email)
        // JSON.parse throws before the pending challenge is removed
        case Unreadable => Step(Failed("MFA verification failed"), st)
        // JSON.parse(null) is null: the challenge is removed, then
        // completeLogin(null) throws
        case Missing => Step(Failed("MFA verification failed"), st - {PendingMfaKey})
        // the challenge is removed before completeLogin can throw
        case Found(user) =>
          if !TokenEncodable(user) then Step(Failed("MFA verification failed"), st - {PendingMfaKey})
          else CompleteLogin(st - {PendingMfaKey}, user, tokens)
  }

  function VerifyEmail(st: Store, code: string, now: nat): (s: Step)
    ensures s.outcome.Succeeded() <==>
            && ReadEmailChallenge(st).Found?
            && Accepts(code, ReadEmailChallenge(st).value.code, ReadEmailChallenge(st).value.expiry, now)
    ensures ReadEmailChallenge(st).Missing? ==> s == Step(Failed("No pending email verification"), st)
    ensures ReadEmailChallenge(st).Unreadable? ==> s == Step(Failed("Email verification failed"), st)
    ensures ReadEmailChallenge(st).Found? && now > ReadEmailChallenge(st).value.expiry ==>
            && s.outcome == Failed("Verification code has expired")
            && EmailVerificationKey !in s.store && OnlyChanged(st, s.store, {EmailVerificationKey})
    ensures ReadEmailChallenge(st).Found? && now <= ReadEmailChallenge(st).value.expiry
            && code != ReadEmailChallenge(st).value.code
            ==> s == Step(Failed("Invalid verification code"), st)
    ensures s.outcome.Succeeded() ==>
            var u := ReadEmailChallenge(st).value.userData;
            && s.outcome == Done
            && EmailVerificationKey !in s.store
            && UserKey(u.email) in s.store
            && s.store[UserKey(u.email)] == UserRecord(u.(emailVerified := true))
            && OnlyChanged(st, s.store, {UserKey(u.email), EmailVerificationKey})
    ensures Consistent(st) ==> Consistent(s.store)
  {
    match ReadEmailChallenge(st)
    case Missing => Step(Failed("No pending email verification"), st)
    case Unreadable => Step(Failed("Email verification failed"), st)
    case Found(challenge) =>
      if now > challenge.expiry then
        Step(Failed("Verification code has expired"), st - {EmailVerificationKey})
      else if code != challenge.code then
        Step(Failed("Invalid verification code"), st)
      else
        var user := challenge.userData.(emailVerified := true);
        Step(Done, st[UserKey(user.email) := UserRecord(user)] - {EmailVerificationKey})
  }

  function ResendEmailVerification(st: Store, now: nat, r: CodeOffset): (s: Step)
    ensures ReadEmailChallenge(st).Missing? ==> s == Step(Failed("No pending verification found"), st)
    ensures ReadEmailChallenge(st).Unreadable? ==> s == Step(Failed("Failed to resend verification code"), st)
    ensures ReadEmailChallenge(st).Found? ==>
            var old_ := ReadEmailChallenge(st).value;
            && s.outcome == Done
            && EmailVerificationKey in s.store && s.store[EmailVerificationKey].EmailVerification?
            && s.store[EmailVerificationKey].challenge.email == old_.email
            && s.store[EmailVerificationKey].challenge.userData == old_.userData
            && s.store[EmailVerificationKey].challenge.expiry == now + EmailCodeLifetime
            && WellFormedCode(s.store[EmailVerificationKey].challenge.code)
            && OnlyChanged(st, s.store, {EmailVerificationKey})
    ensures Consistent(st) ==> Consistent(s.store)
  {
    match ReadEmailChallenge(st)
    case Missing => Step(Failed("No pending verification found"), st)
    case Unreadable => Step(Failed("Failed to resend verification code"), st)
    case Found(challenge) =>
      var renewed := challenge.(code := NewCode(r), expiry := now + EmailCodeLifetime);
      Step(Done, st[EmailVerificationKey := EmailVerification(renewed)])
  }

  /** `logout`, without the navigation to the landing page. */
  function Logout(st: Store): (st': Store)
    ensures forall k :: k in LogoutKeys ==> k !in st'
    ensures OnlyChanged(st, st', LogoutKeys)
    ensures Consistent(st) ==> Consistent(st')
  {
    st - LogoutKeys
  }

  /** A non-empty access token is stored. The token is kept as a raw string
      and never parsed, so whatever record stands under its key is a
      non-empty string unless it is the empty token. */
  predicate HasToken(st: Store) {
    TokenKey in st && st[TokenKey] != Token("")
  }

  /** `isAuthenticated` answers true: a non-empty access token and a
      readable current user. */
  predicate IsAuthenticated(st: Store) {
    HasToken(st) && ReadCurrentUser(st).Found?
  }

  /** What a call of `isAuthenticated` does. */
  datatype Answer = Yes | No | Throws

  /** `isAuthenticated`: `!!this.token && !!this.getCurrentUser()`. The `&&`
      short-circuits, so `getCurrentUser`'s `JSON.parse` only runs, and
      only throws on an unparsable snapshot, when a token is present. */
  function AuthenticatedCall(st: Store): (a: Answer)
    ensures a == Yes <==> IsAuthenticated(st)
    ensures a == Throws <==> HasToken(st) && ReadCurrentUser(st).Unreadable?
    ensures !HasToken(st) ==> a == No
  {
    if !HasToken(st) then No
    else match ReadCurrentUser(st)
      case Found(_) => Yes
      case Missing => No
      case Unreadable => Throws
  }
}
