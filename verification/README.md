# Session store of a React/Supabase client, modelled in Dafny

This project models the client-side session logic of a small React application
that signs users in through Supabase. It covers four pieces.

- **The session store** (`AuthContext`). The snapshot is `(user, isLoading)`.
  It starts as `(null, true)`. Five transitions change it: restore-on-load,
  login, register, logout and the local `updateUser`.
- **The profile page's save handler** (`Profile`). It runs an optional auth
  email update, then the `users` row update, then the local update.
- **The private-route guard and the route table** (`Routes`).
- **The login and registration form rules** (`AuthSchemas`), plus the `User`
  record and the partial-record spread that `updateUser` performs (`AuthTypes`).
  In a `User`, `id` and `email` are required strings. Name, bio, profile image
  and location are `Option<string>`.

Every call into Supabase is an input to the model. A `Call<T>` says how the
awaited promise settled: it resolved with a reply, or it rejected. The reply
is a sum type: an error message, or the data. This follows the client's
convention that `data` is null whenever `error` is set. Each operation is a
pure function. It maps the snapshot before, plus those inputs, to a `Step`:
the snapshot after, the outcome its caller sees (`Done`, or `Failed(message)`
for a thrown or rethrown error), and the provider requests it issued, in
order. `SessionLifecycle` applies sequences of completed operations in the
order they complete; a restore there is the corrected one (see Findings), not
the restore effect as written.

Behaviour of the code worth noting, which the model keeps:
- Logout clears the user whenever `signOut()` returns, even if the reply
  carries an error. It keeps the user when the call throws, so a local logout
  is not unconditional.
- When sign-up succeeds but the `users` insert fails, register rethrows and
  leaves the snapshot unchanged. This is the rollback policy.
- `updateUser` with no current user silently does nothing. It does not signal
  a missing session.
- Restore never sets `location`. Login sets all four profile fields, `""` when
  missing.

## Model

| member | source | states |
|---|---|---|
| `Common.OrEmpty` | src/contexts/AuthContext.tsx:55-58 | `value \|\| ""` is the value when present, and `""` exactly when the value is missing or empty |
| `AuthTypes.Merge` | src/contexts/AuthContext.tsx:165-171 | `{...prev, ...newData}`: each of the six keys, when present in the patch, takes the patch's value; every absent key keeps the old field |
| `AuthTypes.MergeNoChange` | src/contexts/AuthContext.tsx:169 | spreading an empty partial user leaves the user unchanged |
| `AuthTypes.MergeIdempotent` | src/contexts/AuthContext.tsx:169 | spreading the same partial user twice equals spreading it once |
| `AuthTypes.MergeCompose` | src/contexts/AuthContext.tsx:169 | two successive spreads equal one spread of the two patches combined, the later one winning |
| `AuthSchemas.Scan` | src/types/auth.ts:15-17 | testing a one-class regular expression finds a match iff some character of the password lies in that class |
| `AuthSchemas.Utf16Length` | src/types/auth.ts:6 | string length counts UTF-16 code units, so it lies between the number of characters and twice it (the exact count per character is `Utf16LengthOfChar`) |
| `AuthSchemas.Utf16LengthOfBmp` | src/types/auth.ts:14 | on Basic-Multilingual-Plane text the length rule counts characters |
| `AuthSchemas.Utf16LengthAppend` | src/types/auth.ts:14 | the length of a concatenation is the sum of the lengths |
| `AuthSchemas.Utf16LengthOfChar` | src/types/auth.ts:14 | a single character counts 1, or 2 when it lies above U+FFFF |
| `AuthSchemas.AstralPasswordMeetsMinimum` | src/types/auth.ts:6 | four characters above U+FFFF meet the login password minimum of 8 |
| `AuthSchemas.ValidateRegister` | src/types/auth.ts:9-22 | each rule has its own issue: name shorter than 2, bad email, password shorter than 8, no A–Z, no special character, no digit, and confirmation ≠ password (on `confirmPassword`). Each issue is reported iff its rule fails. No other issue appears, none appears twice, and there are no issues iff all rules hold |
| `AuthSchemas.ValidateLogin` | src/types/auth.ts:4-7 | the email issue is reported iff the email is invalid, and the length issue iff the password is shorter than 8. No other issue appears, none twice, and there are no issues iff both rules hold |
| `AuthSchemas.ReportedExact` | src/types/auth.ts:12-22 | when no two rules share an issue, a rule's issue is reported exactly when that rule fails |
| `AuthSchemas.ReportedDistinct` | src/types/auth.ts:12-22 | when no two rules share an issue, no issue is reported twice |
| `AuthSchemas.StrongPasswordPassesLogin` | src/types/auth.ts:4-17 | credentials meeting every registration rule pass the login schema with no issues |
| `AuthSchemas.LoginPasswordNotStrong` | src/types/auth.ts:6-17 | the converse fails: "password" passes login's rule but not registration's |
| `AuthSchemas.SecretIsStrong` | src/types/auth.ts:12-17 | "Secret1!" meets every registration password rule |
| `AuthContext.LoginUser` | src/contexts/AuthContext.tsx:51-59 | login's user: provider id, provider email or `""`, all four profile fields set, each from the row when the column is non-null, `""` when the row is missing or the column is null |
| `AuthContext.Login` | src/contexts/AuthContext.tsx:32-66 | failures leave the snapshot unchanged and rethrow: a sign-in error or profile-query error with its message, a rejected call with its reason, no user with "Login failed". Success iff both calls succeed; the user is then replaced. `isLoading` is untouched. The sign-in request comes first, and the profile select (of name, bio, location, profile_image by id) only after a user is returned |
| `AuthContext.RegisteredUser` | src/contexts/AuthContext.tsx:79-86 | register's user: submitted name, provider email or else the submitted email, empty bio and image, no location |
| `AuthContext.NewRow` | src/contexts/AuthContext.tsx:90-98 | the inserted row carries the new user's id, email, name, bio and image, and no location |
| `AuthContext.Register` | src/contexts/AuthContext.tsx:69-107 | the user is set iff sign-up returns a user and the insert succeeds. Every failure, including an insert error after sign-up, leaves the snapshot unchanged. It is rethrown with the error's message, a rejected call's reason, or "Registration failed" when no user is returned. `isLoading` is untouched. The insert is requested only after sign-up returns a user |
| `AuthContext.Logout` | src/contexts/AuthContext.tsx:110-117 | never fails for its caller; clears the user whenever `signOut` returns; keeps the snapshot when it throws; `isLoading` untouched |
| `AuthContext.RestoredUser` | src/contexts/AuthContext.tsx:149-156 | restore's user: provider id, provider email or `""`, name, bio and image from the row when the column is non-null, `""` when the row is missing or the column is null, and no location |
| `AuthContext.RestoreAsWritten` | src/contexts/AuthContext.tsx:121-160 | restore as written. A lookup error or no session clears `isLoading` and keeps the user. A profile-query error still yields the user, with `""` fields. `isLoading` stays true exactly when a call rejects. The profile select (name, bio, profile_image) follows the lookup only when a user is found |
| `AuthContext.Restore` | src/contexts/AuthContext.tsx:121-160 | corrected restore: `isLoading` always ends false. User and requests are those of the code. The user changes only when a session was found, and the restored user has no location |
| `AuthContext.UpdateUser` | src/contexts/AuthContext.tsx:165-171 | with no user nothing changes; otherwise the user becomes the merge of the patch; no user is ever created; `isLoading` untouched |
| `AuthContext.FailedLoginKeepsSnapshot` | src/contexts/AuthContext.tsx:39-40 | when sign-in errors, rejects or returns no user, login fails with the snapshot unchanged, after only the sign-in request |
| `AuthContext.LoginReplacesUser` | src/contexts/AuthContext.tsx:52-61 | a successful login's user does not depend on the user it replaces |
| `AuthContext.LogoutIdempotent` | src/contexts/AuthContext.tsx:110-117 | logging out twice equals logging out once |
| `AuthContext.RegisterPartialFailureKeepsSnapshot` | src/contexts/AuthContext.tsx:88-106 | sign-up succeeds but the insert errors: register fails with the insert's message; the snapshot is unchanged; both requests were made |
| `AuthContext.UpdateUserNoChange` | src/contexts/AuthContext.tsx:165-171 | updating with an empty partial user leaves the snapshot unchanged |
| `SessionLifecycle.OnlyRestoreWritesLoading` | src/contexts/AuthContext.tsx:122-159 | across any run of login, register, logout and update operations, `isLoading` keeps its value |
| `SessionLifecycle.StillLoadingBeforeRestore` | src/contexts/AuthContext.tsx:122-159 | from the initial `(null, true)` snapshot, `isLoading` stays true through any operations that complete before restore |
| `SessionLifecycle.LoadingSettlesAfterRestore` | src/contexts/AuthContext.tsx:121-160 | after the (corrected) restore, `isLoading` is false and no later non-restore operation sets it again |
| `SessionLifecycle.LoadingSticksAsWritten` | src/contexts/AuthContext.tsx:121-136 | as written, a rejected session lookup leaves `isLoading` true through every later non-restore operation |
| `SessionLifecycle.FailedLoginIsInvisible` | src/contexts/AuthContext.tsx:62-65 | dropping a failed login from anywhere in a run leaves the final snapshot unchanged |
| `SessionLifecycle.RestoreWithoutSession` | src/contexts/AuthContext.tsx:133-136 | from the initial snapshot, restore with no provider session ends as `(null, false)` |
| `SessionLifecycle.LoginWithNameOnly` | src/contexts/AuthContext.tsx:52-59 | restore (no session), then a login whose row holds only the name "Ann", ends with that user. Its email is the provider's, its name is "Ann", bio, image and location are `""`, and loading is false |
| `SessionLifecycle.StaleLoginUndoesLogout` | src/contexts/AuthContext.tsx:61 | a successful login completing after a logout leaves a user signed in (no ordering guard) |
| `Profile.SaveProfile` | src/pages/Profile.tsx:28-58 | no user: nothing is requested and nothing changes. The auth email update, carrying the submitted email, is requested iff the email changed; no other request is made besides the row write. If the email update fails, the row update is skipped. The row write carries exactly name, bio and location keyed by the user id. The local update happens, and edit mode is left, iff every write succeeded; otherwise snapshot and edit mode are unchanged. `isLoading` is untouched; the email update precedes the row update |
| `Profile.SavedUserMatchesWrite` | src/pages/Profile.tsx:39-51 | after a committed save the local user has the id, name, bio and location of the row write. Its email is the submitted one; its image is unchanged |
| `Profile.ResaveIsStable` | src/pages/Profile.tsx:33-51 | submitting the same form again after a committed save leaves the snapshot unchanged |
| `Routes.PrivateRoute` | src/routes/index.tsx:15-27 | loading gives the loading screen whatever the user. Not loading and no user redirects to `/login` with replace. Children render iff not loading and a user is present |
| `Routes.Render` | src/routes/index.tsx:29-50 | exactly `/login`, `/register`, `/` and `/profile` match. `/login` and `/register` show their pages outside the layout, and `/` shows home inside it. `/profile` sits inside the layout behind the guard: it shows the profile page iff the guard renders its children, the loading screen while loading, and the guard's redirect otherwise. The profile page appears nowhere else |
| `Routes.ProfileShownIff` | src/routes/index.tsx:15-45 | the profile page is shown iff the path is `/profile`, loading is over and a user is present |
| `Routes.OnlyProfileIsGuarded` | src/routes/index.tsx:33-37 | every path other than `/profile` renders the same whatever the session |
| `Routes.ProfileWhileLoadingOrSignedOut` | src/routes/index.tsx:18-24 | `/profile` shows the loading screen while loading, and redirects to `/login` with replace once loading ends without a user |

## Findings

| source | as written | input that shows it | evidently intended | confidence | as-written member | corrected member |
|---|---|---|---|---|---|---|
| src/contexts/AuthContext.tsx:121-160 | the restore effect has no `try`/`catch`/`finally`. A rejected `getUser()` or profile query leaves `isLoading` true, and nothing else ever clears it | `getUser()` rejects (an exception the client does not turn into an error reply); the private route then shows the loading screen for good | `isLoading` ends false however the lookup ends, as it does on every handled path | low: depends on the client rejecting rather than returning an error; not executed | `AuthContext.RestoreAsWritten`, `SessionLifecycle.LoadingSticksAsWritten` | `AuthContext.Restore`, `SessionLifecycle.LoadingSettlesAfterRestore` |

## Left out

- Supabase itself (`signInWithPassword`, `signUp`, `signOut`, `getUser`, the
  `users` select/insert/update, `auth.updateUser`). It is a foreign library.
  Its replies are inputs, and the requests sent to it are recorded.
- The provider user's other fields, copied into `User` by the object spread.
  They are opaque; `User` keeps `id`, `email` and the four profile fields.
- The schema library's email format check. It is a parameter `isEmail` of the
  validators.
- Async interleaving. Each operation completes as one atomic transition. A run
  of operations is taken in completion order. The code has no sequence number
  or ordering guard to model.
- React mechanics: hooks, the context provider, `useAuth` throwing outside a
  provider, StrictMode's double effect run, re-rendering, and the Suspense
  fallback.
- Logging (`console.error`, `console.log`). The messages an operation rethrows
  are kept.
- Profile.SaveProfile: the whole save handler is taken as one atomic step.
  In the code, the row write uses the `user.id` captured when the page
  rendered. `updateUser` then merges into whatever the snapshot holds once
  both awaits have finished. A login or logout that completes during those
  awaits is not modelled. The model reads the user once, from the snapshot
  the step starts from.
- AuthTypes.Merge: a key present in the partial user with the value
  `undefined` is not modelled. Absent and present-with-a-value are the only
  cases.
- Routes.Render: react-router's path normalisation (trailing slash, case
  insensitivity) is not modelled. Paths are taken as normalised.
- The view and wiring files: navbar, layout, loading screen, home and
  register pages, app shell, entry point, styling configuration. They carry
  no logic beyond markup or navigation.
