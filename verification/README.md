# YY-Medical authentication core, modelled in Dafny

This project models the mock authentication subsystem of the YY-Medical site
and its automatic-execution consent switch:

- the three server route modules (`login`, `register`, `reset-password`),
  each with its **own** in-memory account table (the reset module also has
  a reset-ticket table keyed by token);
- the client session store (`useAuthStore`: login, logout, refreshToken,
  updateUser, clearError and the persisted projection);
- the route guard (`AuthGuard`: redirect effect and render decision);
- the client-side checks and request flow of the registration and
  reset-password forms;
- the consent provider (`automatic-execution-context`) and the consent
  dialog (`automatic-execution-consent`).

Everything is a pure function over immutable datatypes. The clock
(`Date.now()`), the random reset token, the JWT signer, the answer of each
`fetch`, `hasPermission` and `encodeURIComponent` are parameters. Each
client action returns the effects it performs (loading on/off, request
sent, login called, navigation) as an ordered list of events.

Modules, one per source file, plus shared helpers:

| file | module | models |
|---|---|---|
| wrappers.dfy | `Wrappers` | `Option` (for `null`/`undefined`) and `Result` |
| seqs.dfy | `Seqs` | `Array.prototype.some` and `findIndex` |
| text.dfy | `Text` | truthiness of a field, `toLowerCase`, decimal `toString` |
| accounts.dfy | `Accounts` | account rows, the password-free user, email lookup, responses |
| login_route.dfy | `LoginRoute` | `app/api/auth/login/route.ts` |
| register_route.dfy | `RegisterRoute` | `app/api/auth/register/route.ts` |
| reset_route.dfy | `ResetRoute` | `app/api/auth/reset-password/route.ts` |
| transport.dfy | `Transport` | how a failed `fetch` becomes an error message |
| auth_store.dfy | `AuthStore` | `store/useAuthStore.ts` |
| auth_guard.dfy | `AuthGuard` | `components/auth/AuthGuard.tsx` |
| register_form.dfy | `RegisterForm` | `components/auth/RegisterForm.tsx` |
| reset_password_form.dfy | `ResetPasswordForm` | `components/auth/ResetPasswordForm.tsx` |
| consent_provider.dfy | `ConsentProvider` | `contexts/automatic-execution-context.tsx` |
| consent_dialog.dfy | `ConsentDialog` | `components/ui/automatic-execution-consent.tsx` |

Facts about the code that shape the model:

- A reset ticket is deleted only when the reset succeeds. When the
  ticket's account is missing the answer is 404 and the ticket survives,
  still live until its expiry (`ResetRoute.OrphanTicketSurvives`).
- The three route modules keep three separate `users` arrays. A password
  reset therefore does not change the table the login route reads, so
  "reset, then log in with the new password" is not a property of this
  code and is not claimed.
- For the same reason the automatic sign-in after a registration always
  fails. The form signs in with the typed email and password through the
  login route. That route's table holds only its four seeded accounts, and
  the register route accepts only an email none of those accounts carries.
  The login therefore answers 401, the form shows "邮箱或密码不正确" and the
  user is never sent to "/" (`RegisterForm.AutoLoginIsAlwaysRefused`).
- The store never checks token expiry. The invariant it keeps is
  `AuthStore.Coherent`: a user is present exactly when a token is, and the
  store is authenticated exactly then.

The registration form sends `department` whatever the role is. A department
picked while the role was "doctor" is still sent after the role is changed
and the selector is hidden (`RegisterForm.HiddenDepartmentIsStillSent`).

## Model

| member | source | states |
|---|---|---|
| Seqs.Any | app/api/auth/register/route.ts:56 | `some` is true iff some element satisfies the predicate |
| Seqs.FirstIndex | app/api/auth/reset-password/route.ts:81 | `findIndex` gives the first satisfying index; it finds nothing iff no element satisfies the predicate |
| Accounts.FindByEmail | app/api/auth/login/route.ts:55 | lookup returns the first row whose email equals the given one ignoring case, or nothing iff no row matches |
| Accounts.EmailTaken | app/api/auth/register/route.ts:56 | the duplicate test holds iff some row's email equals the given one ignoring case, and agrees with the lookup |
| Accounts.FindByEmailIgnoresCase | app/api/auth/login/route.ts:55 | two emails equal up to case find the same row |
| Accounts.UniqueMatch | app/api/auth/reset-password/route.ts:81 | in a table with case-insensitively unique emails, the lookup finds the one matching row |
| Accounts.WithoutPasswordKeepsProfile | app/api/auth/login/route.ts:63-70 | the password-free user keeps every other field: adding the password back restores the row |
| Accounts.SequentialIdsAreDistinct | app/api/auth/register/route.ts:62 | ids assigned as `index + 1` in decimal are pairwise distinct |
| Text.LowerNormalises | app/api/auth/login/route.ts:55 | lower-casing maps each capital A-Z to its own lower-case letter and keeps every other character, so it leaves no upper-case letter, fixes lower-case strings, and is idempotent |
| Text.Decimal | app/api/auth/register/route.ts:62 | `toString` of a natural is non-empty digits without a leading zero, except "0" |
| Text.DecimalRoundTrip | app/api/auth/register/route.ts:62 | reading back the decimal text of `n` gives `n` |
| Text.DecimalInjective | app/api/auth/register/route.ts:62 | different numbers give different id strings |
| LoginRoute.Post | app/api/auth/login/route.ts:44-88 | malformed body gives 500; an empty email or password gives 400; 200 iff the first case-insensitive email match has exactly the given password, and 401 with the credentials message whenever both fields are non-empty and there is no such match; on 200 the body is that row without password plus the token signed over it; every failure is a message, and 401 always carries the same message; the table is only read, never returned changed |
| LoginRoute.RejectionIsUniform | app/api/auth/login/route.ts:58-60 | an unknown email and a wrong password get identical responses (401, same message) |
| LoginRoute.EmailCaseIgnored | app/api/auth/login/route.ts:55 | emails equal up to case get the same response |
| LoginRoute.PasswordCaseMatters | app/api/auth/login/route.ts:35-60 | the seeded "My151001" account refuses "my151001" and accepts "My151001" |
| LoginRoute.SeedIsWellFormed | app/api/auth/login/route.ts:7-42 | four seeded accounts, ids "1".."4", emails pairwise distinct ignoring case |
| RegisterRoute.AvatarOf | app/api/auth/register/route.ts:68 | the avatar path is "/avatars/" followed by the role and ".png" |
| RegisterRoute.Post | app/api/auth/register/route.ts:44-100 | malformed body gives 500; a missing email, password, name or role gives 400, department being optional; a case-insensitive duplicate gives 409; every refused request leaves the table unchanged; 200 iff fields present and email new, and then exactly one row is appended after the unchanged old rows, with id the decimal of old length + 1, the email as supplied, the department as supplied and the role's avatar, and the response is that row without password plus the token signed over it |
| RegisterRoute.SeedSatisfiesInvariant | app/api/auth/register/route.ts:7-42 | the seeded table has unique emails ignoring case and sequential ids |
| RegisterRoute.PostPreservesInvariant | app/api/auth/register/route.ts:56-72 | every registration keeps emails unique ignoring case and ids sequential |
| RegisterRoute.SecondRegistrationConflicts | app/api/auth/register/route.ts:56-58 | registering an email again, in any case variant, is refused with 409 and changes nothing |
| RegisterRoute.RegisterFifthAccount | app/api/auth/register/route.ts:61-72 | registering "a@x.com" as a doctor on the seed gives id "5" and avatar "/avatars/doctor.png" |
| ResetRoute.Request | app/api/auth/reset-password/route.ts:22-62 | malformed body gives 500; a missing email gives 400 and no ticket; otherwise 200 with the fixed acknowledgement; unknown email leaves state unchanged; a known email (any case) stores one ticket under the given token, for the stored account email, expiring one hour (3,600,000 ms) after now; accounts never change |
| ResetRoute.Consume | app/api/auth/reset-password/route.ts:64-101 | malformed body gives 500; missing token or password gives 400; an absent ticket or one with `expires < now` gives 400; a failure changes nothing; a live ticket whose email matches no account gives 404 "user does not exist" and changes nothing; 200 iff the ticket is live and its email matches an account, and then only that first account's password is set and only that ticket is deleted |
| ResetRoute.RequestDoesNotRevealAccounts | app/api/auth/reset-password/route.ts:36-57 | the reset request's response is the same for every non-empty email, registered or not |
| ResetRoute.RequestThenConsume | app/api/auth/reset-password/route.ts:43-95 | a minted token consumed at or before its expiry succeeds and is then gone |
| ResetRoute.RequestThenConsumeTooLate | app/api/auth/reset-password/route.ts:46-78 | a minted token consumed after the hour is refused with 400 and nothing changes |
| ResetRoute.ConsumedTicketIsGone | app/api/auth/reset-password/route.ts:75-91 | after a successful consumption the same token is refused with 400 |
| ResetRoute.ConsumeIsLocal | app/api/auth/reset-password/route.ts:81-91 | success changes no other account, no other field of the matched account, and no other ticket |
| ResetRoute.OrphanTicketSurvives | app/api/auth/reset-password/route.ts:81-85 | in any state, a live ticket whose email has no account gives 404, stays in the table and stays live until its expiry; once an account with that email is added the same request succeeds and deletes it |
| ResetRoute.LookupAsWritten | app/api/auth/reset-password/route.ts:75 | indexing the ticket object yields the ticket stored under the token iff there is one, else an inherited member iff the token names one |
| ResetRoute.ConsumeAsWritten | app/api/auth/reset-password/route.ts:64-101 | as written, a truthy token naming an inherited member, with a non-empty table, gives 500 and changes nothing, and with an empty table gives 404; every other request (empty token, empty or missing password, or a token naming no inherited member) is answered as by `ResetRoute.Consume` |
| ResetRoute.InheritedTokenIsNotRefusedAsInvalid | app/api/auth/reset-password/route.ts:75-98 | with no tickets, the token "constructor" gets 500 as written, and 400 "invalid or expired" from the corrected handler |
| Transport.Raise | store/useAuthStore.ts:48-50 | a non-ok answer always throws an `Error`, carrying the server's message when non-empty and the handler's default otherwise; a throw from the call itself propagates unchanged |
| Transport.Caught | store/useAuthStore.ts:63-67 | an `Error` yields its own message; any other thrown value yields the fallback |
| Transport.FailureMessage | store/useAuthStore.ts:49-67 | the recorded error is the server's non-empty message, else the default for a non-ok answer, else the thrown error's message, else the fallback |
| AuthStore.Partialize | store/useAuthStore.ts:139-143 | the stored record carries the state's user, token and authentication flag |
| AuthStore.Hydrate | store/useAuthStore.ts:137-143 | rehydrating a stored record and storing again gives the same record; transient fields start at their initial values |
| AuthStore.HydrateAfterPartialize | store/useAuthStore.ts:139-143 | only user, token and isAuthenticated are stored; storing then rehydrating restores the state iff it was not loading and had no error |
| AuthStore.LoginStart | store/useAuthStore.ts:36 | login first turns loading on and clears the error, leaving the session fields |
| AuthStore.Login | store/useAuthStore.ts:35-70 | success sets user, token, authenticated, loading off, error null; failure turns loading off, records the failure's message, keeps user/token/flag and rethrows the same error |
| AuthStore.Logout | store/useAuthStore.ts:72-82 | logout clears user, token and flag, and keeps loading and error |
| AuthStore.RefreshToken | store/useAuthStore.ts:84-119 | no truthy token, or any failure, gives false with state unchanged; success replaces only the token and sets the flag, and returns true |
| AuthStore.MergeLaws | store/useAuthStore.ts:129 | the shallow merge with an empty patch is identity, is idempotent, and two merges compose as one overlay |
| AuthStore.UpdateUser | store/useAuthStore.ts:121-131 | no user means no change; otherwise each of id, email, name, role, department and avatar takes the patch's value when the patch has the key and keeps the user's value otherwise (an explicitly absent department or avatar clears it), and nothing but the user changes |
| AuthStore.ClearError | store/useAuthStore.ts:133-135 | only the error is cleared |
| AuthStore.ActionsPreserveCoherence | store/useAuthStore.ts:28-135 | from the initial state every action keeps: user present iff token present iff authenticated |
| AuthStore.LoginThenLogout | store/useAuthStore.ts:35-82 | logging in signs in the returned user and token; logging out then leaves an empty session |
| AuthGuard.RequiredRoles | components/auth/AuthGuard.tsx:16 | absent required roles default to none; a supplied list is used as given |
| AuthGuard.RedirectTo | components/auth/AuthGuard.tsx:16 | absent redirect target defaults to "/login"; a supplied target is used as given |
| AuthGuard.Redirect | components/auth/AuthGuard.tsx:21-35 | no redirect while loading; signed out goes to the target plus "?returnUrl=" and the encoded path; signed in goes to "/unauthorized" iff some role is required and none is permitted |
| AuthGuard.Render | components/auth/AuthGuard.tsx:37-53 | spinner iff loading; children iff settled, signed in, and no role required or some required role permitted |
| AuthGuard.RenderAgreesWithRedirect | components/auth/AuthGuard.tsx:21-53 | children are rendered iff settled with no redirect, and nothing is rendered iff a redirect is issued |
| AuthGuard.DoctorOnAdminPage | components/auth/AuthGuard.tsx:28-48 | a signed-in session without "admin" permission on an admin page goes to "/unauthorized" and sees nothing |
| AuthGuard.SignedOutGoesToLogin | components/auth/AuthGuard.tsx:16-26 | with default props, signed out goes to "/login?returnUrl=" plus the encoded path |
| RegisterForm.Change | components/auth/RegisterForm.tsx:29-36 | an edit of any of the six fields sets exactly that field and leaves the others, the error and the loading flag |
| RegisterForm.OnlyDoctorsSeeDepartment | components/auth/RegisterForm.tsx:168-175 | of the offered roles only "doctor" shows the department selector |
| RegisterForm.Check | components/auth/RegisterForm.tsx:42-51 | "required fields" iff name, email, password or role is empty; "mismatch" iff those are filled and the two passwords differ; department is not checked |
| RegisterForm.CheckedBodyHasRequiredFields | components/auth/RegisterForm.tsx:61-67 | a form that passes the client checks sends a body that passes the route's field check |
| RegisterForm.HiddenDepartmentIsStillSent | components/auth/RegisterForm.tsx:61-67 | a department picked as a doctor is still sent after switching to another role |
| RegisterForm.Submit | components/auth/RegisterForm.tsx:38-86 | a failed check sets its message and emits nothing; otherwise loading on, register request, and loading off last; a refused request records its message and never calls login; an accepted one emits exactly loading on, one register request, one login call through the store with the same email and password, navigation to "/" iff that login succeeds, and loading off; the error is empty iff navigation happened |
| RegisterForm.SubmitIgnoresPriorError | components/auth/RegisterForm.tsx:38-46 | the outcome of a submit does not depend on the previous error |
| RegisterForm.AutoLoginFailureIsShown | components/auth/RegisterForm.tsx:76-82 | a failing auto-login shows the login error's message, leaves the session as it was and does not navigate |
| RegisterForm.AutoLoginIsAlwaysRefused | components/auth/RegisterForm.tsx:76-82 | on any register table that starts with the seeded four rows, an accepted registration's email and password are refused by the login route with 401 and the credentials message; fed that refusal, the form shows that message, keeps the session and does not navigate |
| ResetPasswordForm.Check | components/auth/ResetPasswordForm.tsx:28-42 | checks run in order: empty field, then mismatch, then missing token |
| ResetPasswordForm.Submit | components/auth/ResetPasswordForm.tsx:23-75 | a failed check sets its message, clears success and emits nothing; otherwise loading on, the request with the token and `newPassword` equal to the password, and loading off last; ok sets the success message and emits exactly loading on, one request, the redirect to "/login" after 3000 ms and loading off; a failure records its message; error and success are never both set |
| ResetPasswordForm.SubmitIgnoresPriorMessages | components/auth/ResetPasswordForm.tsx:23-26 | the outcome of a submit does not depend on the previous error or success |
| ResetPasswordForm.DisabledAfterSuccess | components/auth/ResetPasswordForm.tsx:111-128 | after a request the form is disabled iff it succeeded |
| ResetPasswordForm.SentBodyHasFields | components/auth/ResetPasswordForm.tsx:52-55 | the body sent always passes the route's field check |
| ConsentProvider.Mount | contexts/automatic-execution-context.tsx:28-43 | at mount the dialog is closed, a stored value overrides the initial false, and storage mirrors the flag |
| ConsentProvider.CheckConsentRequired | contexts/automatic-execution-context.tsx:45-47 | consent is required iff it has not been given, iff (with storage in step) storage does not hold an agreement; while required, asking opens the dialog, otherwise asking changes nothing |
| ConsentProvider.RequestConsent | contexts/automatic-execution-context.tsx:49-53 | opens the dialog only when consent is missing; a no-op otherwise |
| ConsentProvider.SetConsentGiven | contexts/automatic-execution-context.tsx:55-60 | sets the flag and stores it; consenting closes the dialog, refusing leaves it |
| ConsentProvider.SetShowConsentDialog | contexts/automatic-execution-context.tsx:66 | sets only dialog visibility |
| ConsentProvider.OperationsKeepStorageInStep | contexts/automatic-execution-context.tsx:40-43 | every operation keeps storage equal to the flag, so a remount restores it |
| ConsentProvider.ConsentRequiredUntilGiven | contexts/automatic-execution-context.tsx:45-60 | consent is required at a fresh mount and after refusal; a remount requires it unless storage holds an agreement; after agreement it is not required and asking again does not open the dialog |
| ConsentProvider.UseAutomaticExecution | contexts/automatic-execution-context.tsx:16-22 | fails with the fixed message iff no provider is present |
| ConsentDialog.OnUnderstoodChange | components/ui/automatic-execution-consent.tsx:87-91 | the first box becomes true only for a checked value of exactly true; the other box is kept |
| ConsentDialog.OnAgreedChange | components/ui/automatic-execution-consent.tsx:98-102 | the second box becomes true only for a checked value of exactly true; the other box is kept |
| ConsentDialog.OnOpenChanged | components/ui/automatic-execution-consent.tsx:41-47 | opening clears both boxes; closing keeps them |
| ConsentDialog.AgreeEnabled | components/ui/automatic-execution-consent.tsx:116 | the agree button is enabled iff both boxes are ticked |
| ConsentDialog.ClickAgree | components/ui/automatic-execution-consent.tsx:31-34 | agree emits something iff it is enabled, and then exactly consent then close |
| ConsentDialog.ClickDisagree | components/ui/automatic-execution-consent.tsx:36-39 | disagree emits refusal then close, whatever the boxes say |
| ConsentDialog.FreshDialogNeedsBothBoxes | components/ui/automatic-execution-consent.tsx:87-117 | an indeterminate or false value does not tick a box; a freshly opened dialog cannot be agreed to; after opening, agree is enabled iff both boxes were then given exactly true |
| ConsentDialog.ClicksReachTheProvider | components/ui/automatic-execution-consent.tsx:31-39 | wired to the provider, an enabled agree leaves consent given, stored and the dialog closed; a disabled agree changes nothing; disagree leaves consent refused, stored and the dialog closed |

## Left out

- JWT signing (`SignJWT`, `getJwtSecretKey`): the signer is the parameter `sign`, a total function of the password-free user. Issued-at and 24-hour expiry claims are not modelled. A signer failure is not modelled: in the code a throw from signing answers 500, after the new row has already been appended in the register route (app/api/auth/register/route.ts:72 then :85-98), and in place of the 200 in the login route (app/api/auth/login/route.ts:73-86).
- `Math.random` token generation and `Date.now()`: the new token and the current time are parameters of `ResetRoute.Request` and `ResetRoute.Consume`.
- `fetch`, `response.json()`, `document.cookie`, zustand `persist`/`localStorage` mechanics, `router.push`, `setTimeout` and `console.error`: `fetch` answers are inputs; navigation, the delayed redirect and the loading flag are returned as events; cookies and logging are not modelled.
- `hasPermission` (from `hooks/useAuth`, which is not part of this model) and `encodeURIComponent`: abstract function parameters of the guard.
- JSON field values that are not strings (numbers, objects): fields are absent or strings. A truthy non-string email would throw inside `toLowerCase` and give 500; this is not modelled.
- ResetRoute.Consume: this is the corrected handler used by the rest of the model. It treats a token naming an inherited object member as absent. `ResetRoute.ConsumeAsWritten` models the code's behaviour for such tokens (see Findings). The list of inherited names covers the standard members of `Object.prototype` only.
- Text.LowerNormalises: `toLowerCase` is modelled for ASCII letters only; full Unicode case mapping is not modelled.
- AuthStore.UpdateUser: a patch can leave `department` or `avatar` present but `undefined`, and then the spread clears that field. For `id`, `email`, `name` and `role` a patch field is either absent or a string. A `Partial<User>` key present with the value `undefined` for one of these four, which the spread at store/useAuthStore.ts:129 would copy, leaving the user's field `undefined`, is not modelled, because the user type keeps those four fields as strings.
- Text.Decimal: `toString` switches to exponent notation above 10^21. Array lengths are far below that, so the model only renders plain decimal.
- ConsentProvider.Mount: storage holds a boolean. Text other than "true"/"false" under the key (which `JSON.parse` would reject or turn into a non-boolean) is not modelled.
- Tokens minted under a name of an inherited member: random base-36 tokens can in principle spell "constructor", and the assignment then creates an own entry; the model treats it like any other token.
- ConsentDialog.Deliver: the dialog's callbacks are assumed wired to the provider's `setConsentGiven` and `setShowConsentDialog`. No wiring code is part of this model.
- React rendering, the intermediate renders between `set` calls, and unmount during an in-flight request: each action is one transition from its start state to its settled state. Only `AuthStore.LoginStart` models an intermediate state.
- The login and forgot-password forms, the network and offline banners, the performance monitor, the export service, the build scripts, and page markup and constants: none of these hold auth or consent logic.

## Findings

| source | as written | input that shows it | evidently intended | confidence | as-written member | corrected member |
|---|---|---|---|---|---|---|
| app/api/auth/reset-password/route.ts:75-84 | the ticket is read with `resetTokens[token]` on a plain object, so a token naming an inherited member yields a truthy non-ticket; `undefined < now` is false, so it passes the expiry test, and `resetData.email.toLowerCase()` then throws | `PUT` with body `{"token": "constructor", "newPassword": "x"}` and no tickets stored: the answer is 500 "error while resetting" | every token without a live stored ticket is refused with 400 "invalid or expired reset token" | high; not executed | ResetRoute.ConsumeAsWritten (shown by ResetRoute.InheritedTokenIsNotRefusedAsInvalid) | ResetRoute.Consume |
