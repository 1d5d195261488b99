# Credential and session core of a browser sign-up/login demo

This project models the decision logic of a small single-page application. A
visitor signs up with a name, email and password. The record is kept under the
key `user` in the browser's durable storage. The visitor logs in by exact
comparison against that record, then views and edits it on a profile page
whose route is gated on the key holding non-empty text.

Modules, following the source files:

- `Identity`: the stored `User` record, its three `Field`s and the `With`
  field update.
- `Validation` (`src/utils/Validationutils.tsx`): `ValidateSignup` and
  `ValidateLogin` as pure functions from field values to a partial error
  record (`map<Field, string>`). It also holds ECMAScript whitespace, `trim`,
  and the email regular expression twice over: as an executable check
  (`EmailShape`) and read directly as a pattern (`MatchesEmailPattern`). A
  lemma proves the two accept the same strings.
- `LocalStorage` (`src/hooks/Localstorage.ts`): `DurableStorage` is the shared
  key/value storage. `Store` is one use of the hook: a constructor that loads
  the entry or falls back, and `SetValue`, which takes a literal or an updater.
  Entries are `Serialized(u) | EmptyText | Unparseable`, so JSON stays abstract.
  The abstraction assumes that parsing the stringified record returns it.
- `Navigation`: the three route paths and the router's location, which `navigate` sets.
- `Login`, `Signup`, `Users` (`src/pages/*.tsx`): one class per page, holding
  the page's state variables. Each handler is a method. Each `setTimeout` is a
  pending completion that a separate `Complete` step carries out.
- `App` (`src/App.tsx`): `IsAuthenticated` and the route table `Route`.
- `Scenarios`: whole flows across pages, store and router. Each starts from a
  fresh storage and states where the flow ends: the page state, the location,
  and the view `Route` gives for that location on the storage as it then is.

Three behaviours of the code worth knowing:

- The profile route is gated on the `user` entry being a non-empty string;
  the record's fields are not looked at. Unparseable text under the key opens
  the profile, and the profile then shows the empty fallback record
  (`App.UnparseableEntryShowsFallback`).
- A failed durable write during signup does not return the page to the idle
  state. `setValue` catches the error itself, so the `catch` in
  `src/pages/Signup.tsx:37-40` cannot be reached. The submit still schedules
  its completion and navigates to the profile (`Scenarios.SignupWithFailedWrite`).
- A login whose password has one to five characters, such as `wrong`, is
  stopped by validation with only the length error and never reaches the
  credential comparison, whatever record is stored
  (`Scenarios.ShortPasswordNeverCompared`).

## Model

| member | source | states |
|---|---|---|
| `Identity.With` | src/pages/Users.tsx:18-21 | the edited field takes the new value and the other two fields keep theirs |
| `Validation.TrimStartSplits` | src/utils/Validationutils.tsx:10 | trimming the start removes a blank prefix, and the longest one: the rest is empty or starts with a non-whitespace character |
| `Validation.TrimEndSplits` | src/utils/Validationutils.tsx:15 | trimming the end removes a blank suffix, and the longest one: the rest is empty or ends with a non-whitespace character |
| `Validation.TrimEmptyIffBlank` | src/utils/Validationutils.tsx:10 | `!s.trim()` holds if and only if every character of `s` is whitespace |
| `Validation.IndexOf` | src/utils/Validationutils.tsx:14 | the result is the position of the first occurrence, or the length when there is none |
| `Validation.EmailShapeIsPattern` | src/utils/Validationutils.tsx:14 | every string the executable check accepts splits as run, `@`, run, `.`, run over `[^\s@]` |
| `Validation.PatternIsEmailShape` | src/utils/Validationutils.tsx:14 | every such split passes the executable check |
| `Validation.EmailShapeMatchesPattern` | src/utils/Validationutils.tsx:14 | the check and the regular expression accept exactly the same strings |
| `Validation.ShapeHasOneAt` | src/utils/Validationutils.tsx:14 | a string with two `@` never has the email shape |
| `Validation.ShapeHasDomainDot` | src/utils/Validationutils.tsx:14 | a string with the email shape has a `.` after its `@`, with characters between them and after the dot |
| `Validation.PatternIsNotBlank` | src/utils/Validationutils.tsx:14-19 | a matching email is never blank, so "required" and "invalid" cannot both apply |
| `Validation.CheckNameEntry` | src/utils/Validationutils.tsx:10-12 | the name key is added if and only if the name is blank, always with "Name is required", and other keys are untouched |
| `Validation.CheckEmailEntry` | src/utils/Validationutils.tsx:14-19 | "Email is required" if and only if blank; "Invalid email format" if and only if not blank and not matching; at most one message; other keys untouched |
| `Validation.CheckPasswordEntry` | src/utils/Validationutils.tsx:21-25 | "required" if and only if empty; "at least 6" if and only if the length is 1 to 5; other keys untouched |
| `Validation.ValidateLogin` | src/utils/Validationutils.tsx:30-47 | a login result never has a name key |
| `Validation.SignupEntries` | src/utils/Validationutils.tsx:7-28 | each of the three entries is present exactly when that field fails, with the message for how it fails |
| `Validation.LoginEntries` | src/utils/Validationutils.tsx:30-47 | login reports no name and reports email and password exactly as signup's rules say |
| `Validation.LoginAgreesWithSignup` | src/utils/Validationutils.tsx:30-47 | for any name, login's email and password entries equal signup's |
| `Validation.SignupEmptyIffValid` | src/utils/Validationutils.tsx:7-28 | the signup result is empty if and only if the name is not blank, the email matches and the password has at least 6 characters |
| `Validation.LoginEmptyIffValid` | src/utils/Validationutils.tsx:30-47 | the login result is empty if and only if the email matches and the password has at least 6 characters |
| `Validation.MalformedEmailIsInvalid` | src/utils/Validationutils.tsx:15-18 | a non-blank email with a second `@` or with whitespace anywhere gets "Invalid email format", never "required" |
| `Validation.DotlessDomainIsInvalid` | src/utils/Validationutils.tsx:15-18 | a non-blank email with no `.` that has characters on both sides after an `@` gets "Invalid email format" |
| `Validation.LongBlankPasswordPasses` | src/utils/Validationutils.tsx:21-25 | a password of 6 or more whitespace characters passes, because it is not trimmed |
| `Validation.ClearingHidesOnlyThatField` | src/pages/Signup.tsx:58-61 | writing `''` into one entry hides that field's error and shows every other field as before |
| `Validation.ReportedFieldsShow` | src/utils/Validationutils.tsx:7-47 | every entry a validation creates is a non-empty message, so the form marks it |
| `Validation.AllEmptySignup` | src/utils/Validationutils.tsx:10-25 | three empty fields give all three "required" messages |
| `Validation.WellFormedSignup` | src/utils/Validationutils.tsx:7-28 | `("Ann", "ann@x.com", "abcdef")` gives an empty result |
| `Validation.BadEmailLogin` | src/utils/Validationutils.tsx:33-44 | `("bad-email", "123456")` gives only the email format error |
| `Validation.ShortPasswordLogin` | src/utils/Validationutils.tsx:40-44 | `("a@b.com", "wrong")` gives only the password length error |
| `LocalStorage.Load` | src/hooks/Localstorage.ts:6-15 | the stored record when the key holds text that parses; the fallback when the key is absent, empty or unparseable, with no error to the caller |
| `LocalStorage.Persist` | src/hooks/Localstorage.ts:22 | the key holds the serialised value and every other key is as before |
| `LocalStorage.LoadAfterPersist` | src/hooks/Localstorage.ts:9-22 | a fresh load of the key just written yields the written value |
| `LocalStorage.PersistIsolation` | src/hooks/Localstorage.ts:22 | writing one key does not change what any other key loads |
| `LocalStorage.Store.constructor` | src/hooks/Localstorage.ts:6-15 | the mirror starts as the load-or-fallback of the key |
| `LocalStorage.Store.SetValue` | src/hooks/Localstorage.ts:17-26 | the mirror becomes the literal, or the updater applied to the old mirror; storage holds it under the key when the write succeeds and is unchanged when it fails |
| `Login.FallbackRecordRejectsEveryLogin` | src/pages/Login.tsx:17-32 | with the empty fallback record, no credentials that pass validation match |
| `Login.LoginPage.constructor` | src/pages/Login.tsx:10-17 | empty fields, no errors, not loading, and the `user` entry loaded with the empty fallback |
| `Login.LoginPage.ChangeEmail` | src/pages/Login.tsx:67-70 | the email is set and only its error entry becomes `''` |
| `Login.LoginPage.ChangePassword` | src/pages/Login.tsx:80-83 | the password is set and only its error entry becomes `''` |
| `Login.LoginPage.HandleSubmit` | src/pages/Login.tsx:19-41 | on failed validation: the errors, not loading, nothing scheduled. On exact match of email and password: still loading, one completion scheduled. Otherwise: the rejection message, not loading. The store is never written |
| `Login.LoginPage.Complete` | src/pages/Login.tsx:34-37 | loading stops and the location becomes `/user` |
| `Signup.SignupPage.constructor` | src/pages/Signup.tsx:10-17 | empty fields, no errors, not loading |
| `Signup.SignupPage.ChangeName` | src/pages/Signup.tsx:56-59 | the name is set and only its error entry becomes `''` |
| `Signup.SignupPage.ChangeEmail` | src/pages/Signup.tsx:69-72 | the email is set and only its error entry becomes `''` |
| `Signup.SignupPage.ChangePassword` | src/pages/Signup.tsx:82-85 | the password is set and only its error entry becomes `''` |
| `Signup.SignupPage.HandleSubmit` | src/pages/Signup.tsx:19-31 | on failed validation only the errors change. Otherwise the record becomes exactly the typed fields and is persisted when the write succeeds; the page is loading and one completion is scheduled |
| `Signup.SignupPage.Complete` | src/pages/Signup.tsx:32-36 | loading stops and the location becomes `/user` |
| `Users.UsersPage.constructor` | src/pages/Users.tsx:14-15 | not editing, and the `user` entry loaded with the empty fallback |
| `Users.UsersPage.Edit` | src/pages/Users.tsx:79 | edit mode is on |
| `Users.UsersPage.HandleChange` | src/pages/Users.tsx:18-21 | the chosen field takes the value as typed, unvalidated; the other fields keep theirs; the record is written under `user` |
| `Users.UsersPage.HandleSubmit` | src/pages/Users.tsx:23-26 | edit mode is off and the record is not touched |
| `App.Route` | src/App.tsx:16-24 | `/login` and `/signup` always show their screens. `/user` shows the profile if and only if authenticated. Every redirect goes to `/login` |
| `App.PersistedRecordAuthenticates` | src/App.tsx:9-11 | any written record, even one with all fields empty, authenticates, so `Route` shows the profile for `/user` on the storage after the write |
| `App.UnparseableEntryShowsFallback` | src/App.tsx:9-21 | unparseable text under `user` opens the profile, which then loads the empty fallback |
| `App.MissingEntryRedirects` | src/App.tsx:19-22 | no entry, or an empty one, redirects `/user` to `/login` |
| `Scenarios.SignupThenLogin` | src/pages/Signup.tsx:19-36 | a valid signup replaces any prior record; the same credentials then log in, `Route` on the storage as it then is shows the profile for the location reached, and a fresh profile mount shows the fields as typed |
| `Scenarios.LoginAgainst` | src/pages/Login.tsx:19-41 | with a stored record, matching credentials reach the profile after completion; anything else stays on login with the generic message |
| `Scenarios.LoginWithNothingStored` | src/pages/Login.tsx:17-41 | with nothing stored, every well-formed login is rejected and loading stops |
| `Scenarios.ShortPasswordNeverCompared` | src/pages/Login.tsx:24-29 | for any stored record, a well-formed email with a password of 1 to 5 characters yields only the length error and no credential message |
| `Scenarios.EditThenRemount` | src/pages/Users.tsx:14-21 | an edit, even to an empty value, is what a later mount reads back, and the profile stays reachable |
| `Scenarios.SignupWithFailedWrite` | src/hooks/Localstorage.ts:17-26 | if the write fails, the page's mirror has the new record and the submit still navigates, but a later mount loads the old contents |

## Left out

- `Validation.CheckPassword`: it counts characters (Unicode scalar values). The source's `password.length` counts UTF-16 code units, so a character outside the Basic Multilingual Plane counts twice there. The regular expression also runs over code units there, but that does not change which strings match: neither half of a surrogate pair is whitespace or `@`.
- `App.Route`: the gate is evaluated on the current storage at every navigation. In the source, `isAuthenticated()` runs once when `App` renders (`src/App.tsx:21`); `App` has no state, so it renders once per page load, and a later `navigate('/user')` reuses the element built then. When the page loaded with no `user` entry, the profile reached in `Scenarios.SignupThenLogin` and `App.PersistedRecordAuthenticates` is reached in a browser only after a reload; until then the visitor is redirected to `/login`.
- `App.Route`: paths are compared as exact strings. By default the router also matches paths case-insensitively and ignores a trailing slash; that matching is not modelled.
- `LocalStorage.Load`: text that parses to JSON other than a record (such as `null` or `42`) is not modelled. In the source that value would become the mirror.
- JSON serialisation and the browser storage API are abstract. The model assumes parsing the stringified record returns it, and a failed write (such as a full quota) is the `written` flag.
- React rendering and hook semantics, including stale closures over the mirror. Each page holds its own mirror loaded at mount, and each handler is one sequential step on the current state.
- The 2000 ms delay, timer cancellation on unmount, and the `console` logging have no effect on the modelled state.
- The disabled submit button while loading is not modelled. `HandleSubmit` may be called at any time, and completions are counted.
- The Login `catch` branch ("An error occurred, please try again.", `src/pages/Login.tsx:42-45`) and the Signup `catch` branch cannot be reached: nothing in either `try` block throws. The `user &&` test in Login always holds, because the mirror is always a record.
- `Users.UsersPage.HandleChange`: it is accepted whether or not edit mode is on. The source only renders the inputs in edit mode, and the handler itself does not check.
- Markup, layout and the presentational components `FormInput` and `SubmitButton`.
- Access to storage from several tabs at once.
