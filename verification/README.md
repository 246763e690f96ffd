# Health-care booking: store, session and access guard in Dafny

This project models the three pieces of sequential logic inside the
health-care booking web application, and proves properties of them.

- **The directory and booking store** (`services/mockApiService.ts`). It holds
  the user records (patients, administrators and doctors with practice
  fields), the appointments and three id counters. Its operations are login
  lookup, registration, the approved-doctor and all-doctor listings, booking,
  the per-patient and per-doctor appointment listings, cancellation, doctor
  approval and removal. Modules `MockApi` (the operations) and
  `StoreInvariant` (the invariant and multi-step properties).
- **The session provider** (`context/AuthContext.tsx`). It holds the state
  `(token, user, isLoading)` and persists to local storage under the keys
  `authToken` and `authUser`. Its operations are restore (`loadSession`),
  login, register, logout and the derived `isAuthenticated`. Module
  `AuthContext`.
- **The access guard and the route table** (`components/shared/ProtectedRoute.tsx`,
  `App.tsx`, and the return target of `components/pages/LoginPage.tsx`).
  Module `AccessGuard`.

Supporting modules:
- `Wrappers` holds `Option` and `Result`.
- `Seqs` models the array methods `find`, `filter` and the stable `sort`.
- `Decimal` renders numbers the way template literals build ids, and proves that rendering injective.
- `Types` holds the entities of `types.ts`.

Every store operation is one atomic transition on an immutable `Store`. An
operation that throws returns `Err` and no new store, so after a failure the
caller still holds the store exactly as it was. Local storage is a
`map<string, string>`. JSON is a `Codec`, a pair of functions
`serialise`/`parse`, and `parse` returns `None` where `JSON.parse` throws.
Where the model needs facts about JSON, the lemma requires `WfCodec`: parsing
a serialised user returns it, and the empty string does not parse.

A user record is a datatype with three constructors: `PatientAccount`,
`AdminAccount` and `DoctorAccount`. Only the doctor constructor carries the
practice fields. The source never builds a Doctor-role record without those
fields, so the role is read off the constructor (`RoleOf`). An appointment's
`doctorSpecialty` is an `Option<string>`. Booking does not check roles, so a
`doctorId` that names a patient copies `undefined` into the appointment,
which the model writes as `None`.

Behaviour of the code that the rest of the application does not expect:
- Cancellation overwrites any status, so a Completed appointment becomes
  Cancelled (`CancelOverridesCompleted`). The appointments page offers
  cancelling only for Scheduled appointments
  (components/pages/AppointmentsPage.tsx:81); the store itself does not check.
- A failed restore clears the whole storage (`localStorage.clear()`), not
  just the two session keys. When only one of the two keys is present,
  restore clears nothing.
- `isAuthenticated` is `!!token`, so an empty token counts as signed out.
  `TransitionsKeepTokenNonEmpty` shows that no operation ever installs an
  empty token. So in every reachable state it is exactly "token is non-null"
  (`AuthenticatedIffToken`).
- On a corrupt stored user, restore leaves the stored token installed. The
  error handler's `localStorage.clear()` (context/AuthContext.tsx:21-23)
  shows that an unreadable session is meant to be discarded. See Findings.

## Model

| member | source | states |
|---|---|---|
| MockApi.Seed | services/mockApiService.ts:4-20 | nine records, among them `d3` (fifth) and `d7` (ninth), which are exactly the ones awaiting approval; the one seeded appointment is Scheduled and lies after start-up |
| MockApi.MessageIdentifiesError | services/mockApiService.ts:28-105 | each error kind has its own message text, so the message a page shows identifies the error |
| MockApi.FindByEmail | services/mockApiService.ts:27 | the first record with the email, or None exactly when no record has it |
| MockApi.FindUser | services/mockApiService.ts:58-59 | the first record with the id, or None exactly when no record has it |
| MockApi.Login | services/mockApiService.ts:25-33 | no record has the email gives "User not found"; if the first record with the email is an unapproved doctor, the result is "not yet approved"; otherwise the result is that record with token `mock-token-for-<id>`; an unapproved doctor never signs in |
| MockApi.Register | services/mockApiService.ts:35-47 | fails with "Email already in use" exactly when some record has the email; otherwise appends one record at the end with the given name, email and role; a doctor gets id `d<nextDoctorId>`, approved false, specialty "General", fee 100, experience 1; other roles get `<nextUserId>`; only the counter used advances |
| MockApi.ApprovedDoctors | services/mockApiService.ts:50-53 | the result is exactly the approved doctor records, each as often as stored, in storage order |
| MockApi.AllDoctors | services/mockApiService.ts:97-100 | the result is exactly the Doctor-role records, approved or not, in storage order |
| MockApi.Book | services/mockApiService.ts:56-75 | fails "User or Doctor not found" exactly when either id matches no record; otherwise appends one Scheduled appointment `a<n>` that copies the first matching records' names and specialty; the users and the other counters are unchanged |
| MockApi.PatientAppointments | services/mockApiService.ts:77-80 | a permutation of exactly the appointments with the patient id, in non-increasing time order |
| MockApi.DoctorAppointments | services/mockApiService.ts:91-94 | a permutation of exactly the appointments with the doctor id, in non-increasing time order |
| MockApi.Cancel | services/mockApiService.ts:82-88 | fails unless some appointment has both the id and the owner; otherwise the first such appointment becomes Cancelled whatever its status, and no other appointment changes |
| MockApi.Approve | services/mockApiService.ts:102-108 | fails "Doctor not found" exactly when no Doctor-role record has the id; otherwise the first one becomes approved and nothing else changes |
| MockApi.Remove | services/mockApiService.ts:110-114 | never fails; keeps exactly the records without the id, each as often as stored, in order, whatever their role; appointments and counters unchanged |
| StoreInvariant.SeedValid | services/mockApiService.ts:4-20 | the seed data has unique emails, unique ids, and only ids below the counters |
| StoreInvariant.FreshUserIds | services/mockApiService.ts:18-19 | the next user id and the next doctor id are not among the ids the counters already produced |
| StoreInvariant.FreshAppointmentId | services/mockApiService.ts:63 | the next appointment id is not among those already produced |
| StoreInvariant.RegisterKeepsValid | services/mockApiService.ts:35-47 | registration keeps emails and ids unique; the new id and email belong to no stored record |
| StoreInvariant.BookKeepsValid | services/mockApiService.ts:56-75 | booking keeps appointment ids unique; the new id belongs to no stored appointment |
| StoreInvariant.CancelKeepsValid | services/mockApiService.ts:82-88 | cancellation keeps the store invariant |
| StoreInvariant.ApproveKeepsValid | services/mockApiService.ts:102-108 | approval keeps the store invariant |
| StoreInvariant.RemoveKeepsValid | services/mockApiService.ts:110-114 | removal keeps the store invariant |
| StoreInvariant.RemoveIdempotent | services/mockApiService.ts:110-114 | after a removal no record has the id, and a second removal changes nothing |
| StoreInvariant.CancelNeedsOwner | services/mockApiService.ts:84-85 | in a valid store, cancelling an existing appointment for anyone but its owner fails |
| StoreInvariant.CancelIdempotent | services/mockApiService.ts:82-88 | a second cancellation succeeds, returns the same Cancelled appointment and changes nothing |
| StoreInvariant.CancelOverridesCompleted | services/mockApiService.ts:84-86 | the owner's cancellation turns a Completed appointment into a Cancelled one |
| StoreInvariant.ApproveIdempotent | services/mockApiService.ts:102-108 | a second approval succeeds and changes nothing |
| StoreInvariant.ApprovedAmongAllDoctors | services/mockApiService.ts:50-53 | the approved listing is a subsequence of the all-doctor listing |
| StoreInvariant.DoctorSignUpNeedsApproval | services/mockApiService.ts:25-47 | a newly registered doctor's login fails as unapproved; after approval of the new id the login returns the approved record |
| StoreInvariant.DoubleBookingAllowed | services/mockApiService.ts:56-75 | booking the same doctor and time again still succeeds: there is no slot-conflict check |
| StoreInvariant.LaterAppointmentListedFirst | services/mockApiService.ts:77-80 | of two listed appointments of a patient, the later one comes first |
| Seqs.FindFirst | services/mockApiService.ts:27 | returns the first index whose element matches, or None exactly when nothing matches |
| Seqs.Filter | services/mockApiService.ts:52 | keeps exactly the matching elements with their multiplicities, as a subsequence of the input |
| Seqs.SortDesc | services/mockApiService.ts:79 | the result is a permutation of the input in non-increasing key order |
| Decimal.NatToString | services/mockApiService.ts:43 | a numeral starts with a digit and has one character exactly for numbers below ten |
| Decimal.NatToStringInjective | services/mockApiService.ts:41-43 | different counter values give different ids |
| AuthContext.IsAuthenticated | context/AuthContext.tsx:55 | true only with a token, with every non-empty token, and never with the empty token |
| AuthContext.AuthenticatedIffToken | context/AuthContext.tsx:55 | when tokens are never empty, authenticated exactly when a token is present, whether or not a user is |
| AuthContext.LoadSession | context/AuthContext.tsx:13-27 | loading always ends; without both stored values truthy nothing else changes; with both, the stored token is installed, and the user too when it parses; when it does not parse, storage is cleared and the user is left as it was |
| AuthContext.LoadSessionFixed | context/AuthContext.tsx:21-26 | loading always ends; an unparseable stored user leaves no token, no user and empty storage |
| AuthContext.FixedAgreesUnlessParseFails | context/AuthContext.tsx:13-27 | the corrected restore and the restore as written agree whenever parsing does not fail |
| AuthContext.Login | context/AuthContext.tsx:33-39 | fails exactly when the store refuses, with its error and nothing written; on success both keys are written and the token and user installed |
| AuthContext.LoginIgnoresPassword | context/AuthContext.tsx:33-34 | the password never changes a login's outcome |
| AuthContext.Register | context/AuthContext.tsx:41-43 | succeeds exactly when the store registers, and leaves session and storage unchanged; on failure it returns the store's error |
| AuthContext.Logout | context/AuthContext.tsx:45-50 | both keys are gone, every other key is kept, token and user are null, not authenticated |
| AuthContext.LogoutIdempotent | context/AuthContext.tsx:45-50 | logging out twice equals once; with no session it changes nothing |
| AuthContext.TransitionsKeepTokenNonEmpty | context/AuthContext.tsx:13-50 | restore, login and logout never install an empty token |
| AuthContext.LoginThenRestore | context/AuthContext.tsx:13-39 | after login, a restart and restore give back the same token and user, authenticated |
| AuthContext.LogoutThenRestore | context/AuthContext.tsx:13-50 | after logout, a restart and restore give no session |
| AccessGuard.Guard | components/shared/ProtectedRoute.tsx:17-33 | waits exactly while loading; redirects to login with the location exactly when loaded and signed out; sends home exactly when roles are given, a user is present, and its role is not listed; renders otherwise |
| AccessGuard.View | App.tsx:17-48 | open routes show their page, unknown paths navigate home, guarded routes follow the guard's decision; the spinner shows exactly on a guarded path while loading, the redirect to login carrying the path exactly on a guarded path when signed out, and a shown page is always the route's own |
| AccessGuard.ReturnTarget | components/pages/LoginPage.tsx:18 | the remembered path when present and non-empty, otherwise `/`; never empty |
| AccessGuard.GuardedPagesAdmitOneRole | App.tsx:22-45 | each guarded page lists one role; a signed-in user sees it exactly when of that role, and otherwise is sent home |
| AccessGuard.ProtectedPageRoles | App.tsx:22-45 | appointments for patients, doctor dashboard for doctors, admin dashboard for administrators, and for no one else |
| AccessGuard.OpenAndUnknownPaths | App.tsx:18-47 | home, login and register show in every session; any other unlisted path goes home |
| AccessGuard.LoadingNeverRedirects | components/shared/ProtectedRoute.tsx:17-23 | while loading a guarded page shows the spinner |
| AccessGuard.SignedOutGoesToLogin | components/shared/ProtectedRoute.tsx:25-27 | signed out, a guarded page goes to login carrying its path, which is the login page's return target |
| AccessGuard.TokenWithoutUserSeesEveryPage | components/shared/ProtectedRoute.tsx:29-33 | a token without a user skips the role check and renders every guarded page |
| AccessGuard.LoginReturnsToRequestedPage | components/pages/LoginPage.tsx:18-32 | a signed-out visit to a guarded page goes to login; a successful login of a user with the right role returns to that page and shows it |
| AccessGuard.CorruptUserOpensGuardedPages | context/AuthContext.tsx:17-23 | restoring a token with an unparseable user, as written, authenticates with no user and renders every guarded page |
| AccessGuard.CorruptUserOpensAdminDashboard | context/AuthContext.tsx:17-23 | the concrete storage `{authToken: "t", authUser: "{"}` opens the admin dashboard after restore |
| AccessGuard.FixedRestoreKeepsGuardedPagesClosed | context/AuthContext.tsx:21-26 | with the corrected restore the same storage sends every guarded page to login |

## Left out

- The simulated network delay (`simulateDelay`) and all promise scheduling: each store operation is one atomic step.
- All React rendering and component state of the pages, layout and UI components. This includes the optimistic list updates and the timed banners.
- The home page's rule that only patients may book (components/pages/HomePage.tsx:41-52). It is a UI check; the store does not enforce it, and the model of the store does not either.
- The generative-assistant services and components (Gemini calls, chat and symptom checker). They are foreign API calls with streamed free text.
- Real local storage and JSON. Storage is a map, and JSON is the abstract `Codec`. A stored user that parses as JSON but is not a user record is outside the model.
- Id counters are unbounded naturals. The source's counters (services/mockApiService.ts:18-20) are JavaScript numbers, whose `++` (:41, :43, :63) stops incrementing at 2^53, after which the source would hand out the same id again. The freshness results (StoreInvariant.FreshUserIds, FreshAppointmentId, RegisterKeepsValid, BookKeepsValid) hold for the source only while the counters stay below 2^53.
- `Date` and `Date.now()`: times are integer timestamps, and the seed takes the start-up time as a parameter.
- Object aliasing. Every record the store returns is one of its own objects: the listings, the appointment returned by booking (services/mockApiService.ts:73-74), the user returned by login and registration (:32, :45-46), and the records returned by cancellation and approval. services/mockApiService.ts:86 and :106 change those objects in place, so a value a caller still holds sees the change. The model's values are immutable and do not alias; each operation returns the updated value explicitly.
- React Router's path matching is modelled as exact string equality, without case-insensitivity or trailing slashes. The location carried to login is only its pathname.
- The login page's effect that sends an already-authenticated visitor on to the return target. `hooks/useAuth.ts` and the spinner component are not part of this model.
- MockApi.PatientAppointments: the contract states permutation and order but not the order of appointments with equal times. The sort modelled is stable, like the source's.
- MockApi.DoctorAppointments: the same; the tie order is not stated.
- Seqs.SortDesc: the contract states permutation and non-increasing order but not stability. The insertion sort modelled keeps equal keys in input order, as the source's sort does, but no ensures says so.

## Findings

| source | as written | input that shows it | evidently intended | confidence | as-written member | corrected member |
|---|---|---|---|---|---|---|
| context/AuthContext.tsx:17-23 | `setToken(storedToken)` runs before `JSON.parse(storedUser)`; when the parse throws, the handler clears storage but the installed token stays, with a null user | storage `{authToken: "t", authUser: "{"}` at start-up: the session is authenticated with no user, and the guard skips the role check, so every protected page renders | a stored session that cannot be read leaves no session | medium, not executed | AccessGuard.CorruptUserOpensAdminDashboard | AuthContext.LoadSessionFixed |
