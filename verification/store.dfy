/** The browser's `localStorage` as the demo uses it: a map from string keys
    to JSON records. Each record shape the code writes is a variant of
    `Record`; `Garbled` stands for a non-empty stored string `JSON.parse` rejects. */
module Store {
  import opened Text

  datatype User = User(
    id: string,
    fullName: string,
    email: string,
    passwordHash: string,
    emailVerified: bool,
    mfaEnabled: bool,
    createdAt: nat)

  /** The single pending e-mail verification, carrying the user to save. */
  datatype EmailChallenge = EmailChallenge(email: string, code: string, expiry: int, userData: User)

  /** The single pending MFA challenge of a sign-in. */
  datatype MfaChallenge = MfaChallenge(email: string, code: string, expiry: int)

  /** What `hapo_current_user` holds after a login. */
  datatype Snapshot = Snapshot(id: string, fullName: string, email: string)

  /** A child (student) account; money is in integer cents. */
  datatype Child = Child(
    id: string,
    firstName: string,
    lastName: string,
    username: string,
    password: string,
    weeklyLimit: int,
    dailyLimit: int,
    balance: int,
    parentId: string,
    createdAt: nat,
    active: bool)

  datatype Record =
    | UserRecord(user: User)
    | EmailVerification(challenge: EmailChallenge)
    | PendingMfa(mfa: MfaChallenge)
    | Token(token: string)
    | CurrentUser(snapshot: Snapshot)
    | Children(children: seq<Child>)
    | CurrentStudent(student: Child)
    | Garbled

  type Store = map<string, Record>

  /** The result of `getItem` followed by `JSON.parse`. */
  datatype Slot<T> = Missing | Unreadable | Found(value: T)

  const UserPrefix: string := "hapo_user_"
  const EmailVerificationKey: string := "hapo_email_verification"
  const PendingMfaKey: string := "hapo_pending_mfa"
  const TokenKey: string := "hapo_token"
  const RefreshTokenKey: string := "hapo_refresh_token"
  const CurrentUserKey: string := "hapo_current_user"
  const ChildrenKey: string := "hapo_children"
  const CurrentStudentKey: string := "hapo_current_student"

  /** The keys written under a fixed name. */
  const FixedKeys: set<string> := {EmailVerificationKey, PendingMfaKey, TokenKey,
                                    RefreshTokenKey, CurrentUserKey, ChildrenKey, CurrentStudentKey}

  /** The three keys a completed login writes. */
  const SessionKeys: set<string> := {TokenKey, RefreshTokenKey, CurrentUserKey}

  function UserKey(email: string): (k: string)
    ensures k !in FixedKeys
    ensures |k| == |UserPrefix| + |email| && k[|UserPrefix|..] == email
  {
    var k := UserPrefix + email;
    assert k[5] == 'u';
    k
  }

  /** One user record per e-mail address. */
  lemma UserKeyInjective(a: string, b: string)
    ensures UserKey(a) == UserKey(b) <==> a == b
  {
    if UserKey(a) == UserKey(b) {
      assert a == UserKey(a)[|UserPrefix|..];
    }
  }

  /** `st` and `st'` hold the same thing (or nothing) at `k`. */
  predicate SameAt(st: Store, st': Store, k: string) {
    (k in st <==> k in st') && (k in st ==> st[k] == st'[k])
  }

  /** Only the keys in `ks` may differ between `st` and `st'`. */
  ghost predicate OnlyChanged(st: Store, st': Store, ks: set<string>) {
    forall k :: k !in ks ==> SameAt(st, st', k)
  }

  function ReadUser(st: Store, email: string): (s: Slot<User>)
    ensures s.Missing? <==> UserKey(email) !in st
    ensures s.Found? <==> UserKey(email) in st && st[UserKey(email)].UserRecord?
    ensures s.Found? ==> st[UserKey(email)] == UserRecord(s.value)
  {
    var k := UserKey(email);
    if k !in st then Missing
    else match st[k]
      case UserRecord(u) => Found(u)
      case _ => Unreadable
  }

  function ReadEmailChallenge(st: Store): (s: Slot<EmailChallenge>)
    ensures s.Missing? <==> EmailVerificationKey !in st
    ensures s.Found? <==> EmailVerificationKey in st && st[EmailVerificationKey].EmailVerification?
    ensures s.Found? ==> st[EmailVerificationKey] == EmailVerification(s.value)
  {
    if EmailVerificationKey !in st then Missing
    else match st[EmailVerificationKey]
      case EmailVerification(c) => Found(c)
      case _ => Unreadable
  }

  function ReadMfaChallenge(st: Store): (s: Slot<MfaChallenge>)
    ensures s.Missing? <==> PendingMfaKey !in st
    ensures s.Found? <==> PendingMfaKey in st && st[PendingMfaKey].PendingMfa?
    ensures s.Found? ==> st[PendingMfaKey] == PendingMfa(s.value)
  {
    if PendingMfaKey !in st then Missing
    else match st[PendingMfaKey]
      case PendingMfa(c) => Found(c)
      case _ => Unreadable
  }

  function ReadCurrentUser(st: Store): (s: Slot<Snapshot>)
    ensures s.Missing? <==> CurrentUserKey !in st
    ensures s.Found? <==> CurrentUserKey in st && st[CurrentUserKey].CurrentUser?
    ensures s.Found? ==> st[CurrentUserKey] == CurrentUser(s.value)
  {
    if CurrentUserKey !in st then Missing
    else match st[CurrentUserKey]
      case CurrentUser(u) => Found(u)
      case _ => Unreadable
  }

  /** `JSON.parse(localStorage.getItem('hapo_children') || '[]')`: a missing
      list reads as the empty list. */
  function ReadChildren(st: Store): (s: Slot<seq<Child>>)
    ensures !s.Missing?
    ensures ChildrenKey !in st ==> s == Found([])
    ensures ChildrenKey in st ==> (s.Found? <==> st[ChildrenKey].Children?)
    ensures ChildrenKey in st && s.Found? ==> st[ChildrenKey] == Children(s.value)
  {
    if ChildrenKey !in st then Found([])
    else match st[ChildrenKey]
      case Children(cs) => Found(cs)
      case _ => Unreadable
  }

  /** Records are filed under the key their contents name: a user record
      under its own e-mail, and a pending verification's user under the
      pending e-mail. Every operation of the model keeps this. */
  predicate Consistent(st: Store) {
    && (forall k :: k in st && st[k].UserRecord? ==> k == UserKey(st[k].user.email))
    && (EmailVerificationKey in st && st[EmailVerificationKey].EmailVerification? ==>
          st[EmailVerificationKey].challenge.userData.email == st[EmailVerificationKey].challenge.email)
  }

  /** In a consistent store the user read for an e-mail has that e-mail. */
  lemma ConsistentRead(st: Store, email: string)
    requires Consistent(st)
    ensures ReadUser(st, email).Found? ==> ReadUser(st, email).value.email == email
  {
    if ReadUser(st, email).Found? {
      UserKeyInjective(email, ReadUser(st, email).value.email);
    }
  }
}
