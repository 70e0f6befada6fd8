# HapoPayment authentication and student helpers, in Dafny

HapoPayment is a front-end demo of a family payments app. It has no server.
Its "back end" is the `AuthSystem` class in `public/html-pages/js/script.js`,
which keeps users, pending e-mail and MFA challenges, tokens and the session
in `localStorage`. `StudentAuth` and `StudentDashboard` keep the children
accounts created by a parent under `hapo_children`. The React pages
`SignUp.tsx`, `ParentLogin.tsx` and `StudentLogin.tsx` carry their own
client-side validators and never call `AuthSystem`.

This project models that core as pure functions over an explicit store and
proves what the code promises:

- `text.dfy` (`Text`): JavaScript's white space, `trim`, ASCII
  `toLowerCase`, and the e-mail pattern `\S+@\S+\.\S+`. The pattern is given
  both as a predicate and as a linear scanner, and the two are proved equal.
- `codes.dfy` (`Codes`): the six-digit codes `Math.floor(100000 + r * 900000).toString()`,
  with decimal printing and parsing proved inverse.
- `strength.dfy` (`Strength`): `checkPasswordStrength`.
- `store.dfy` (`Store`): the `localStorage` keys and records. Each read
  distinguishes a missing key from an unparsable value. `Consistent` is the
  store invariant that every operation keeps.
- `auth.dfy` (`Auth`): `signUp`, `signIn`, `verifyMFA`, `completeLogin`,
  `logout`, `isAuthenticated`, `verifyEmail` and `resendEmailVerification`.
  Each carries its exact error messages, and each states which keys it
  writes and which it leaves alone.
- `glue.dfy` (`PageGlue`): the plain-script page handlers around
  `AuthSystem`. These are the sign-up gate, the six-character code checks,
  `resendMFA`, and where the login form goes after `signIn`.
- `flows.dfy` (`AuthFlows`): multi-step properties. Examples: sign-up then
  verify then sign in, sign-in then MFA, the expiry boundary, resend
  retiring the old code, and logout.
- `students.dfy` (`Students`) and `student_flows.dfy` (`StudentFlows`):
  student login and logout, adding a child, transactions written back to
  the stored list, and reward redemption.
- `forms.dfy` (`FormErrors`, `SignUpPage`, `ParentLoginPage`,
  `StudentLoginPage`): the React validators, the clearing of field errors as
  the user types, and the code steps.

The environment becomes parameters:

- `Date.now()` is `now: nat` in milliseconds.
- `Math.random()` is a `CodeOffset` in `0..899999`.
- The SHA-256 digest is a function `digest: string -> string`, applied to
  the password followed by the salt `hapo_salt_2024`.
- The access and refresh tokens are an opaque `Tokens` pair.

An operation returns a `Step`: its `Outcome` (done, awaiting a code, logged
in, failed with a message, or crashed by an uncaught exception) and the new
store. Money is in integer cents.

## Model

| member | source | states |
|---|---|---|
| Text.Trim | src/pages/SignUp.tsx:37 | the trimmed string is empty exactly when the input is all white space; otherwise it is a slice of the input that starts and ends with non-space characters |
| Text.Lower | public/html-pages/js/script.js:1803 | same length as the input; every upper-case ASCII letter is mapped 32 code points up, to its lower-case form, and every other character is kept |
| Text.ScanEmail | src/pages/SignUp.tsx:43 | the single-pass scan answers true exactly when `\S+@\S+\.\S+` matches somewhere in the string |
| Text.MatchStep | src/pages/SignUp.tsx:43 | a match ends inside the first k+1 characters iff it ends inside the first k, or a '.' closing an `\S+@\S+` run is followed by a non-space at k |
| Text.OpenStep | src/pages/SignUp.tsx:43 | how the '@' runs of the pattern extend or break at each character |
| Codes.Decimal | public/html-pages/js/script.js:214 | `toString` of a natural number yields a non-empty string of decimal digits |
| Codes.DecimalRoundTrip | public/html-pages/js/script.js:214 | parsing the printed number gives the number back |
| Codes.DecimalInjective | public/html-pages/js/script.js:214 | different numbers print differently, so different draws give different codes |
| Codes.DecimalLength | public/html-pages/js/script.js:214 | a number with k digits and no leading zero prints as exactly k characters |
| Codes.LeadingDigitNonZero | public/html-pages/js/script.js:214 | a digit string whose value is at least 10 to the power of its length minus one does not start with '0'; `NewCode` applies this to the printed code |
| Codes.NewCode | public/html-pages/js/script.js:214 | every generated code has six digits, no leading zero, and value 100000 + r, so it lies in 100000..999999 |
| Strength.TallyAll | public/html-pages/js/script.js:105-127 | tallying rules in order adds one point per rule met and appends the hint of each rule missed, in rule order |
| Strength.CheckPasswordStrength | public/html-pages/js/script.js:105-127 | the score counts the rules met and the feedback lists the missed rules' hints in order; score plus feedback count is always five |
| Strength.PointsPlusHints | public/html-pages/js/script.js:105-127 | every rule earns either a point or a hint, never both and never neither |
| Strength.HintListedIffMissed | public/html-pages/js/script.js:105-127 | a hint appears in the feedback exactly when its rule is missed |
| Strength.FeedbackIffMissed | public/html-pages/js/script.js:105-127 | for the five rules, a hint is shown iff the password misses that rule |
| Strength.StrongEnoughIffFewMisses | public/html-pages/js/script.js:744-748 | the sign-up page's score of three means at most two of the five rules are missed |
| Strength.ScenarioPasswordIsStrong | public/html-pages/js/script.js:105-127 | `Abcdef1!` meets all five rules and gets no feedback |
| Strength.LetterIsPlain | public/html-pages/js/script.js:115-124 | a lower-case letter is not upper case, not a digit and not one of the special characters |
| Store.UserKey | public/html-pages/js/script.js:211 | a user's key never collides with one of the fixed keys |
| Store.UserKeyInjective | public/html-pages/js/script.js:211 | different e-mails are stored under different keys |
| Store.ReadUser | public/html-pages/js/script.js:236-241 | the read finds a user exactly when a user record is stored under the e-mail's key, and reports a missing key apart from an unparsable one |
| Store.ReadEmailChallenge | public/html-pages/js/script.js:375-380 | the read finds the pending e-mail challenge exactly when one is stored |
| Store.ReadMfaChallenge | public/html-pages/js/script.js:280-285 | the read finds the pending MFA challenge exactly when one is stored |
| Store.ReadCurrentUser | public/html-pages/js/script.js:362-365 | the read finds the session snapshot exactly when one is stored |
| Store.ReadChildren | public/html-pages/js/script.js:1798 | a missing children list reads as the empty list, and a stored list reads as itself |
| Store.ConsistentRead | public/html-pages/js/script.js:211 | in a consistent store, the user found under an e-mail's key has that e-mail |
| Auth.SignUp | public/html-pages/js/script.js:195-230 | stores the unverified, MFA-enabled user under its e-mail with the salted digest, and a pending challenge with a well-formed code expiring ten minutes later; nothing else changes and consistency is kept |
| Auth.SignIn | public/html-pages/js/script.js:233-275 | succeeds iff a readable user exists, the digest matches, the e-mail is verified, and either the account uses MFA or its token can be encoded; there is a source message for each failure; MFA accounts get only a five-minute pending challenge for the given e-mail; other accounts are logged in |
| Auth.CompleteLogin | public/html-pages/js/script.js:307-323 | for a user whose id, e-mail and name are Latin-1, writes the two tokens and the id, name and e-mail snapshot, and touches no other key; for any other user, the `generateJWT` call on its first line throws (its `btoa` refuses characters above U+00FF) before anything is written |
| Auth.VerifyMfa | public/html-pages/js/script.js:278-304 | with the right code by its expiry, the challenge is removed and the challenge's user is logged in with the given tokens, unless its token cannot be encoded, in which case it fails with the challenge already gone; an expired challenge is removed; a wrong code changes nothing; a missing user record removes the challenge and fails with "MFA verification failed"; an unparsable one fails with the same message and keeps the challenge |
| Auth.AuthenticatedCall | public/html-pages/js/script.js:362-370 | `isAuthenticated` answers true iff a non-empty token, read as the raw string it is stored as, and a readable session snapshot are stored; it throws iff the token is there and the snapshot cannot be parsed; without a token it answers false |
| Auth.VerifyEmail | public/html-pages/js/script.js:373-401 | the right code by its expiry stores the pending user with `emailVerified` set and drops the challenge; an expired challenge is dropped; a wrong code changes nothing |
| Auth.ResendEmailVerification | public/html-pages/js/script.js:404-428 | replaces only the code and the expiry, now ten minutes on, of a pending challenge, and keeps its user |
| Auth.Logout | public/html-pages/js/script.js:349-359 | removes both tokens, the session snapshot and the pending MFA challenge, and nothing else |
| PageGlue.SignupErrors | public/html-pages/js/script.js:728-748 | the mismatch, terms and weak-password messages appear exactly when their checks fail; all three checks run |
| PageGlue.SubmitSignup | public/html-pages/js/script.js:722-785 | calls sign-up and shows the code form iff the passwords match, the terms are ticked and the strength score is at least three; otherwise the store is untouched |
| PageGlue.SubmitEmailCode | public/html-pages/js/script.js:832-850 | a code whose length is not six is refused before verification, with the store unchanged |
| PageGlue.SubmitMfaCode | public/html-pages/js/script.js:912-930 | the same six-character gate in front of MFA verification |
| PageGlue.ResendMfa | public/html-pages/js/script.js:947-966 | renews the code and the five-minute expiry of a pending challenge and keeps its e-mail; without one it fails with the source's message, and an unparsable one throws |
| PageGlue.NextScreenAsWritten | public/html-pages/js/script.js:810-816 | as written, every successful sign-in, including one awaiting MFA, goes to the dashboard |
| PageGlue.NextScreen | public/html-pages/js/script.js:810-816 | the corrected handler shows the MFA form exactly for an MFA result and goes to the dashboard only for a completed login |
| PageGlue.SubmitLogin | public/html-pages/js/script.js:789-825 | as written, the login form never shows the MFA form: it goes to the dashboard exactly when sign-in succeeds, MFA accounts included, and shows the error otherwise |
| PageGlue.SubmitLoginCorrected | public/html-pages/js/script.js:789-825 | with the corrected handler, the MFA form appears iff the credentials are valid and the account uses MFA; the dashboard is reached only after a completed login; the error shows iff sign-in fails |
| AuthFlows.SignUpThenVerify | public/html-pages/js/script.js:195-230 | the mailed code, entered within ten minutes, verifies the user just created and clears the challenge |
| AuthFlows.VerifiedAccountSignsIn | public/html-pages/js/script.js:233-275 | after sign-up and verification the same password signs in and asks for an MFA code |
| AuthFlows.ExpiryBoundary | public/html-pages/js/script.js:381-384 | a code is still accepted at the expiry instant, and one millisecond later it is refused and the challenge is dropped |
| AuthFlows.ResendRetiresOldCode | public/html-pages/js/script.js:404-428 | after a resend, the previous code is refused and nothing changes |
| AuthFlows.SignInThenMfa | public/html-pages/js/script.js:254-299 | signing in and entering the mailed code in time logs in exactly that account and stores its token; the store is authenticated whenever the token is non-empty |
| AuthFlows.UnencodableAccountNeverFinishesMfa | public/html-pages/js/script.js:295-302 | for an MFA account with a character above U+00FF in its id, e-mail or name, the right code in time still fails with "MFA verification failed", and the pending challenge is gone |
| AuthFlows.PolishNameIsUnencodable | public/html-pages/js/script.js:144-151 | a name such as `Łukasz` cannot be carried by the token |
| AuthFlows.RawTokenAuthenticates | public/html-pages/js/script.js:367-370 | a stored token that is not JSON, as every JWT is, still authenticates beside a readable session snapshot |
| AuthFlows.WrongMfaCodeNoSession | public/html-pages/js/script.js:291-293 | a wrong MFA code never creates a session |
| AuthFlows.LogoutEndsSession | public/html-pages/js/script.js:349-370 | after logout `isAuthenticated` answers false without throwing, and logging out twice equals logging out once |
| AuthFlows.LoginThenLogout | public/html-pages/js/script.js:307-370 | a completed login with a non-empty, encodable token is authenticated, and logout ends it |
| AuthFlows.LoginFormSkipsMfa | public/html-pages/js/script.js:789-825 | as written, an MFA account's valid login on the form goes to the dashboard with no session in the store |
| AuthFlows.LoginRedirectHasSession | public/html-pages/js/script.js:789-825 | with the corrected handler, any redirect to the dashboard comes with an authenticated store |
| AuthFlows.SignupScenario | public/html-pages/js/script.js:722-768 | a form for `A B` at `a@b.com` with `Abcdef1!` typed twice and the terms ticked is accepted and leaves a six-digit code pending |
| AuthFlows.SignupPagesDisagree | public/html-pages/js/script.js:744-748 | the script page accepts `Ab1!`, which the React page refuses as short, and refuses `abcdefgh`, which the React page accepts |
| Students.FirstIndex | public/html-pages/js/script.js:2071 | `findIndex` yields the first position whose element satisfies the predicate, or none exactly when no element does |
| Students.StudentLogin | public/html-pages/js/script.js:1795-1824 | succeeds iff the first child matching by username or first-name address has the given password, or the default password is given; it then records that child as current. It fails with "Student account not found" when no child matches, "Invalid password" when the first match refuses the password, and "Login failed. Please try again." when the list cannot be parsed |
| Students.StudentLogout | public/html-pages/js/script.js:1834-1838 | removes the current student and nothing else, keeping the store consistent |
| Students.LimitOr | public/html-pages/js/script.js:1284-1285 | a non-zero number is kept, while NaN and zero fall back to the default |
| Students.AddChild | public/html-pages/js/script.js:1274-1311 | appends one active child with zero balance and the source's defaults for username, password and limits; an unparsable list fails with the source's message and changes nothing |
| Students.UpdateStudentData | public/html-pages/js/script.js:2068-2080 | overwrites the first stored child with the same id and the current student; without such a child nothing is written |
| Students.AddTransaction | public/html-pages/js/script.js:2059-2066 | puts the transaction first, moves the balance by its signed amount, and writes the student back |
| Students.RewardCost | public/html-pages/js/script.js:2231-2236 | allowance costs 500 points, curfew 750, and any other reward has no price |
| Students.RedeemReward | public/html-pages/js/script.js:2227-2250 | points are deducted iff a student is logged in, the reward is known, the points suffice and the dialog is confirmed, and then by exactly the cost; the total never goes negative |
| StudentFlows.DefaultPasswordOpensAnyAccount | public/html-pages/js/script.js:1811 | the default password opens every account the username search finds |
| StudentFlows.AddedChildCanLogIn | public/html-pages/js/script.js:1274-1297 | a child just added logs in with its own username and password, unless an earlier child answers to that username |
| StudentFlows.LogoutUndoesStudentLogin | public/html-pages/js/script.js:1795-1838 | logging out after a student login, successful or not, leaves the same store as logging out without it |
| StudentFlows.LowerIdempotent | public/html-pages/js/script.js:1803 | lower-casing twice equals lower-casing once |
| StudentFlows.DefaultUsernameAnyCase | public/html-pages/js/script.js:1282 | a defaulted username is found when typed in any letter case |
| StudentFlows.UpdateStudentDataIdempotent | public/html-pages/js/script.js:2068-2080 | writing the same student back a second time changes nothing |
| StudentFlows.TransactionReachesStore | public/html-pages/js/script.js:2059-2077 | for a student on file, the new balance is stored both as the current student and in the children list |
| FormErrors.ClearOnInput | src/pages/SignUp.tsx:28-31 | typing into a field hides its message and leaves every other field's message, and the set of keys, as they were |
| FormErrors.ClearOnInputIdempotent | src/pages/SignUp.tsx:28-31 | clearing the same field twice equals clearing it once, and clearing the only shown field quiets the form |
| FormErrors.CodeGate | src/pages/ParentLogin.tsx:61-73 | a blank code replaces the whole error map with the one required message; any other code, right or wrong, goes to the parent dashboard |
| FormErrors.EmailMessage | src/pages/SignUp.tsx:41-45 | there is no e-mail message iff the pattern matches; a blank address is "required", and any other failure is "not valid" |
| FormErrors.EmailNotBlank | src/pages/SignUp.tsx:41-45 | an address the pattern accepts is never blank, so the required check never masks a valid address |
| SignUpPage.PasswordMessage | src/pages/SignUp.tsx:47-51 | no message iff the password has at least eight characters; an empty one is "required", and a short one is "too short" |
| SignUpPage.Validate | src/pages/SignUp.tsx:34-63 | each of the five fields has a message exactly when its check fails, carrying the source's message text |
| SignUpPage.ValidateAccepts | src/pages/SignUp.tsx:34-63 | the error map is empty iff the name is non-blank, the e-mail matches, the password has eight characters, the confirmation matches and the terms are ticked |
| SignUpPage.Submit | src/pages/SignUp.tsx:65-77 | the verification step appears iff the form is acceptable; otherwise at least one message shows |
| SignUpPage.VerifyEmailCode | src/pages/SignUp.tsx:79-92 | any non-blank code reaches the dashboard; a blank one leaves only the code-required message |
| ParentLoginPage.Validate | src/pages/ParentLogin.tsx:30-45 | an e-mail message iff the pattern fails, and a password message iff the password is empty, which is not trimmed |
| ParentLoginPage.Submit | src/pages/ParentLogin.tsx:47-59 | the MFA step appears iff the e-mail matches and the password is non-empty; no credential is checked |
| ParentLoginPage.VerifyMfaCode | src/pages/ParentLogin.tsx:61-73 | any non-blank MFA code reaches the dashboard; a blank one leaves only the code-required message |
| StudentLoginPage.Validate | src/pages/StudentLogin.tsx:27-40 | a username message iff the username is blank after trimming, and a password message iff the password is empty |
| StudentLoginPage.Submit | src/pages/StudentLogin.tsx:42-54 | navigates to the student dashboard iff both checks pass; otherwise the messages are shown |
| StudentLoginPage.SpacesAreAPasswordButNotAUsername | src/pages/StudentLogin.tsx:30-36 | a password of spaces is accepted, while a username of spaces is refused |

## Behaviour worth knowing

The model follows the code in each of these cases:

- Not every exception is caught inside the operation that raises it. `resendMFA` parses the pending record outside any `try`. So does the add-child handler when it reads the current user, and so does `updateStudentData`. These cases are the `Crashed` outcome.
- When the stored user record cannot be parsed, `signIn` answers "Sign in failed. Please try again.", not the generic credentials message.
- `verifyMFA` removes the pending challenge as soon as it finds the challenge expired. It also removes it when the user record is missing, and it fails afterwards.
- `addTransaction` writes the new balance back to the children list and to the current student, through `updateStudentData`.
- The plain-script login form does not wait for the MFA step (see Findings).
- `generateJWT` encodes the token with `btoa`, which throws on any character above U+00FF. An id, e-mail or name such as `Łukasz` therefore breaks `completeLogin` before it writes anything. `signIn` then fails with its generic message. In `verifyMFA` the pending challenge has already been removed by then, so the account can never finish the MFA step.
- `isAuthenticated` parses the session snapshot without catching errors, so an unparsable snapshot makes it throw rather than answer false.

## Left out

- The SHA-256 digest and `TextEncoder` are a function parameter. The model assumes the digest never fails, so `signUp`'s "Signup failed" catch path is not reached.
- Apart from its `btoa` failure, `generateJWT` is not modelled. Neither are `validateToken`, `refreshAccessToken` and the `refresh_` prefix. Tokens are opaque values handed to the operations.
- The OAuth mocks (`signInWithGoogle`, `signInWithMicrosoft`) only call `completeLogin` with fixed users. Only `completeLogin` is modelled.
- The e-mail and MFA notifications, alerts, DOM updates, `setTimeout` delays, redirects other than the login form's, the loading spinners and the strength meter UI are not modelled.
- `AuthSystem` keeps `this.token` in memory. The model reads the token from the store instead; the constructor loads it from there.
- Concurrency between tabs sharing `localStorage` is not modelled. Every operation runs to completion.
- `createdAt` is the `now` parameter, not an ISO date string.
- String lengths count code points. JavaScript counts UTF-16 units, so the counts differ outside the Basic Multilingual Plane.
- `toLowerCase` is modelled for ASCII letters only.
- A stored value of the wrong shape (valid JSON, wrong fields) counts as unparsable. The source would read missing fields as `undefined` instead.
- Money and limits are integer cents. `parseFloat` rounding and floating-point sums are not modelled.
- `redeemReward` reads the points with `parseInt`. A display that does not parse (`NaN`) is not modelled.
- `sendRequestToParent` and the student request list are not modelled. Neither are the remaining dashboard widgets of `script.js` or the React dashboards.
- `handleInputChange` also copies the typed value into the form state. Only its effect on the error map is modelled.
- Students.StudentLogin: a stored child with no first name, on which the source's `toLowerCase` would throw, is not modelled.

## Findings

| source | as written | input that shows it | evidently intended | confidence | as-written member | corrected member |
|---|---|---|---|---|---|---|
| public/html-pages/js/script.js:810-816 | the login form redirects to `parentDashboard.html` whenever `signIn` succeeds, including when it returns `requiresMFA` | a verified account with MFA on (every new account) and its correct password: the pending MFA challenge is written, no token or session is, and the page redirects to the dashboard | show the MFA form on `requiresMFA` and redirect only after a completed login | not executed | PageGlue.NextScreenAsWritten / PageGlue.SubmitLogin (AuthFlows.LoginFormSkipsMfa) | PageGlue.NextScreen / PageGlue.SubmitLoginCorrected (AuthFlows.LoginRedirectHasSession) |
