# Patient-records client: a Dafny model

This project models the client-side logic of a patient-records CRUD front-end. The browser application talks to a REST API for authentication and patient storage. Four pieces of that client are stated here as pure transition functions over immutable state, each taking the server's reply as an input:

- **The HTTP adapter** (`Api`, `api.dfy`). It holds the fixed method/path table of the auth and patient calls. Patient ids are rendered in decimal (`Decimal`, `decimal.dfy`). The request interceptor attaches `Authorization: Bearer <token>` when a token is stored. The response interceptor removes the session keys and redirects to `/` on a 401, unless the browser is already at `/`.
- **The session store** (`AuthContext`, `auth_context.dfy`). It covers the in-memory token/user pair, the `authToken` and `user` storage keys, `login`, `logout`, the derived `isAuthenticated`, and the two-phase rehydration at start-up. Rehydration reads storage, adopts the stored session at once, then verifies it with the profile call or logs out.
- **The dashboard controller** (`Dashboard`, `dashboard.dfy`). The patient list is loaded once and then patched locally: append on create, replace by id on update, filter by id on delete. Delete is guarded by a confirmation. Every failure goes through one error channel, with a fallback message per operation. The dashboard also computes the gender statistics. The lemmas prove that each successful mutation preserves the list's mirror of the server's id-keyed store, so any run of them does.
- **The forms.** `PatientForm` (`patient_form.dfy`) holds the validation schema as a predicate and lists the issues it reports. It also has the default values, `addItem` and `removeItem`, and the submit merge; `addItem` uses JavaScript's `trim`, modelled in `Text` (`text.dfy`). `LoginForm` (`login_form.dfy`) is the login form's field and flag state machine.

`Common` (`common.dfy`) holds the shared vocabulary. `Reply<T>` is `Ok(value)` or `Failed(status, serverError)`: the status is None when no response arrived, and `serverError` is the `error` field of the response body. Storage is a `map<string, string>`. `OrElse` models JavaScript's `message || fallback`, so an empty server message also falls back. `Types` (`types.dfy`) mirrors `Patient`, `PatientInput`, `User` and `AuthResponse`.

Points of the code the model follows closely:

- A 401 received while the browser is at `/` clears nothing: the code skips both the storage clear and the redirect there (src/services/api.ts:30).
- The 401 handler removes only the two storage keys. The in-memory token and user are dropped by the full page load that `window.location.href = "/"` triggers. `AuthContext.UnauthorizedThenReload` states that this reload starts unauthenticated.
- Network failures are not told apart from other API errors. A failed add, update, delete or login shows the server's `error` text when it is non-empty, else that operation's fixed fallback (src/app/dashboard/page.tsx:60, 83, 98; src/contexts/AuthContext.tsx:79). A failed load always shows the fixed "Failed to load patients…" message (src/app/dashboard/page.tsx:43-45).
- The patient form renders an error element only for the name, age and gender fields (src/components/PatientForm.tsx:123-157); the emergency-contact inputs (src/components/PatientForm.tsx:321-347) have none. The schema still attaches messages to blank contact fields, so a form whose only problems are there is refused with nothing on screen. `PatientForm.SilentRefusal` characterises exactly when that happens.
- The TypeScript `Patient` type declares `emergencyContact` as required. The model holds it as `Option<EmergencyContact>`, because the API may omit it and the form's `patient?.emergencyContact || {…}` fallback handles that case.

`AuthContext.IsAuthenticated` is the derived flag itself: true exactly when the token is present and non-empty and a user is held. Several functions have no contract of their own and are specified by the lemmas about them: `Api.EndpointOf`, `Api.CallOf`, `Api.AttachToken`, `Api.Intercept`, `AuthContext.Rehydrate`, `Dashboard.ComputeStats`, `PatientForm.Issues`, `PatientForm.DefaultValues` and `LoginForm.Submit`.

## Model

| member | source | states |
|---|---|---|
| Common.OrElseNonEmpty | src/app/dashboard/page.tsx:60 | a non-empty fallback makes the shown message non-empty; the fallback is shown only when the server text is missing, empty or equal to it |
| Types.GenderRoundTrip | src/types/patient.ts:11 | the three wire spellings "Male", "Female", "Other" name exactly the three genders: parse and print are inverse |
| Text.Trim | src/components/PatientForm.tsx:82 | a trimmed string is no longer than the input and neither starts nor ends with white space |
| Text.TrimSlice | src/components/PatientForm.tsx:82 | trim is a contiguous slice of the input, and only white space lies outside it |
| Text.TrimOfTrimmed | src/components/PatientForm.tsx:82 | a string with no white space at either end is its own trim |
| Text.TrimIdempotent | src/components/PatientForm.tsx:82 | trimming twice is trimming once |
| Text.TrimEmptyIffBlank | src/components/PatientForm.tsx:82 | `item.trim()` is falsy exactly when every character of the item is white space |
| Decimal.NatToString | src/services/api.ts:75 | the decimal rendering of a natural number is a non-empty digit string |
| Decimal.NatRoundTrip | src/services/api.ts:75 | reading the rendered digits back gives the number |
| Decimal.IntRoundTrip | src/services/api.ts:75 | a rendered id, minus sign included, parses back to the same id |
| Decimal.IntToStringInjective | src/services/api.ts:75 | distinct ids render to distinct strings |
| Api.PatientPath | src/services/api.ts:75 | a single-patient path starts with "/patients/" and has an id after it |
| Api.PatientPathRoundTrip | src/services/api.ts:74-97 | a single-patient path is neither the collection path nor an auth path, and its id reads back |
| Api.EndpointRoundTrip | src/services/api.ts:42-97 | every call's method and path read back to that call: getAll GET and create POST on "/patients"; getById GET, update PUT, delete DELETE on "/patients/" plus the decimal id; login POST "/auth/login"; profile GET "/auth/me" |
| Api.EndpointInjective | src/services/api.ts:42-97 | no two calls share a method and path |
| Api.AttachTokenSpec | src/services/api.ts:16-22 | with a non-empty stored token, Authorization becomes "Bearer " + token and every other header is kept; otherwise the headers are unchanged |
| Api.InterceptSpec | src/services/api.ts:25-38 | a 401 away from "/" removes exactly the two session keys and redirects to "/"; anything else, including a 401 at "/", changes neither storage nor location; every reply, success or failure, reaches the caller unchanged |
| Api.InterceptIdempotent | src/services/api.ts:28-34 | handling the same reply again, at the location the first handling left, changes neither storage nor location |
| Api.ConcurrentUnauthorizedCollapse | src/services/api.ts:28-34 | two 401s in flight before the redirect lands end in one clear and the one target "/" |
| Api.NoBearerAfterUnauthorized | src/services/api.ts:8-34 | after a 401 has been handled away from "/", the next request, built from the instance's default headers, carries no bearer token |
| AuthContext.Logout | src/contexts/AuthContext.tsx:83-88 | logout drops token and user, removes both storage keys, keeps every other key, and leaves the session unauthenticated |
| AuthContext.LogoutIdempotent | src/contexts/AuthContext.tsx:83-88 | logging out twice is logging out once |
| AuthContext.Login | src/contexts/AuthContext.tsx:69-81 | success sets token and user and writes both storage keys; failure changes no state and throws the server's `error` when it is non-empty, else "Login failed" |
| AuthContext.LoginAuthenticates | src/contexts/AuthContext.tsx:73-96 | after a successful login the session is authenticated exactly when the returned token is non-empty |
| AuthContext.RehydrateStart | src/contexts/AuthContext.tsx:35-67 | with either key missing or empty, loading stops and nothing else changes; with both present, a malformed user means logout with loading stopped, and otherwise token and parsed user are adopted and the profile check is issued |
| AuthContext.RehydrateFinish | src/contexts/AuthContext.tsx:46-58 | a successful profile reply replaces and re-stores the user; a failed one logs out; loading stops either way |
| AuthContext.RehydrateWithoutSession | src/contexts/AuthContext.tsx:37-66 | start-up with either key missing or empty ends unauthenticated, not loading, with storage untouched |
| AuthContext.RehydrateCorruptUser | src/contexts/AuthContext.tsx:40-62 | a stored user that fails to parse ends in logout with storage cleared and loading stopped, never an error |
| AuthContext.RehydrateOptimistic | src/contexts/AuthContext.tsx:40-44 | a parsable stored session is authenticated straight after the first phase, still loading while the profile check is out |
| AuthContext.RehydrateVerdict | src/contexts/AuthContext.tsx:46-58 | after the profile check, success keeps the session with the refreshed, re-stored user; failure ends unauthenticated with storage cleared; loading is false both ways |
| AuthContext.LoginSurvivesReload | src/contexts/AuthContext.tsx:73-77 | what login stores, the next start-up adopts as the same token and user, when the user's serialization parses back |
| AuthContext.LogoutSurvivesReload | src/contexts/AuthContext.tsx:83-88 | after logout the next start-up is unauthenticated and issues no profile check |
| AuthContext.LoginThenRequestCarriesToken | src/contexts/AuthContext.tsx:73-77 | after a login with a non-empty token, every request carries that token as its bearer |
| AuthContext.UnauthorizedThenReload | src/services/api.ts:28-33 | a 401 handled away from "/" redirects, and the reload it triggers starts unauthenticated without a profile check |
| Dashboard.ReplaceById | src/app/dashboard/page.tsx:76-78 | same length; each entry with the edited id becomes the updated record, and every other entry stays at its position unchanged |
| Dashboard.RemoveById | src/app/dashboard/page.tsx:95 | the survivors are exactly the entries whose id differs |
| Dashboard.RemoveByIdConcat | src/app/dashboard/page.tsx:95 | filtering distributes over concatenation, so survivors keep their relative order |
| Dashboard.RemoveByIdLength | src/app/dashboard/page.tsx:95 | with unique ids, deleting a present id shortens the list by one, and an absent id changes nothing |
| Dashboard.RemoveByIdNoop | src/app/dashboard/page.tsx:95 | filtering an id no entry carries leaves the list unchanged |
| Dashboard.RemoveByIdIdempotent | src/app/dashboard/page.tsx:95 | deleting the same id twice is deleting it once |
| Dashboard.RemoveByIdUnique | src/app/dashboard/page.tsx:95 | filtering keeps ids unique |
| Dashboard.ReplaceKeepsIds | src/app/dashboard/page.tsx:76-78 | replacing by id with a record under that id keeps the id set and id uniqueness |
| Dashboard.ReplaceRecords | src/app/dashboard/page.tsx:76-78 | after the replacement every entry is the updated store's record for its id |
| Dashboard.AppendKeepsMirror | src/app/dashboard/page.tsx:56 | appending a created record with a fresh id keeps the list mirroring the server store extended by it |
| Dashboard.ReplaceKeepsMirror | src/app/dashboard/page.tsx:76-78 | replacing with the updated record keeps the list mirroring the store updated at that id |
| Dashboard.RemoveKeepsMirror | src/app/dashboard/page.tsx:95 | filtering the deleted id keeps the list mirroring the store without that id |
| Dashboard.LoadPatients | src/app/dashboard/page.tsx:36-50 | a successful load replaces the list and clears the error; a failed one keeps the list and sets the fixed load message; loading is false afterwards |
| Dashboard.LoadEstablishesMirror | src/app/dashboard/page.tsx:36-50 | a successful load of a listing with one entry per id leaves the list mirroring the id-keyed store that listing describes; a failed load keeps any mirror that held before |
| Dashboard.FirstLoad | src/app/dashboard/page.tsx:23-50 | the load on mount, from the initial state, either shows the listing (mirroring its store when ids are unique) with no error, or leaves the list empty with the fixed load message; the spinner stops and the form stays closed |
| Dashboard.AddPatient | src/app/dashboard/page.tsx:52-65 | success appends the server's record at the end, keeping every prior entry in order, closes the form and clears the error; failure keeps the list and the form and shows the server's `error` when it is non-empty, else "Failed to add patient"; form loading ends and `loading` and the edit are untouched |
| Dashboard.AddKeepsIdsUnique | src/app/dashboard/page.tsx:56 | a created record with a new id keeps ids unique and adds exactly its id |
| Dashboard.UpdateRequest | src/app/dashboard/page.tsx:67-75 | the update call is issued exactly when an edit is in progress, as PUT on the edited patient's path |
| Dashboard.UpdatePatient | src/app/dashboard/page.tsx:67-88 | with no edit in progress nothing changes; success replaces exactly the entries with the edited id, keeps length and positions, ends the edit and closes the form; failure keeps the list, the edit and the form and shows the server's `error` when non-empty, else "Failed to update patient"; `loading` is never touched |
| Dashboard.DeleteRequest | src/app/dashboard/page.tsx:90-94 | the delete call is issued exactly when confirmed, as DELETE on the patient's path |
| Dashboard.DeletePatient | src/app/dashboard/page.tsx:90-101 | a declined confirmation changes nothing; success removes every entry with the id and clears the error; failure keeps the list and shows the server's `error` when non-empty, else "Failed to delete patient"; the loading flags, the form and the edit are untouched |
| Dashboard.EditPatient | src/app/dashboard/page.tsx:103-106 | editing a patient opens the form on that patient and leaves the list, the error and both loading flags alone |
| Dashboard.CancelForm | src/app/dashboard/page.tsx:108-111 | cancelling closes the form and ends any edit, leaving the list, the error and both loading flags alone |
| Dashboard.OpenForm | src/app/dashboard/page.tsx:162 | the add button opens the form and leaves the edit, the list, the error and both loading flags alone |
| Dashboard.EditThenCancel | src/app/dashboard/page.tsx:103-111 | opening an edit and then cancelling is the same as cancelling |
| Dashboard.FailuresKeepList | src/app/dashboard/page.tsx:52-101 | each failed add, update or delete, on its own, leaves the list unchanged |
| Dashboard.SuccessfulMutationsKeepMirror | src/app/dashboard/page.tsx:52-101 | under the server's contract (fresh id on create, same id on update), each successful add, update or delete keeps the list mirroring the server store: unique ids, the same id set, the same records |
| Dashboard.StatsPartition | src/app/dashboard/page.tsx:118-123 | male + female + other equals total |
| PatientForm.IssuesComplete | src/components/PatientForm.tsx:12-29 | an issue is reported exactly when its rule is broken, and none are reported exactly when the schema accepts |
| PatientForm.Validate | src/components/PatientForm.tsx:12-29 | accepts exactly when the name is non-empty, 0 ≤ age ≤ 150, gender is one of the three names and a present contact has non-empty name, relationship and phone; accepted data keeps every field; a rejection lists exactly the broken rules |
| PatientForm.NewPatientDefaultsInvalid | src/components/PatientForm.tsx:62-74 | the blank new-patient form is rejected on the name and the three contact fields, and on nothing else |
| PatientForm.BlankFormMessages | src/components/PatientForm.tsx:12-29 | the schema attaches "Name is required", "Emergency contact name is required", "Relationship is required" and "Phone number is required" to the blank new-patient form, in field order; only the first is rendered |
| PatientForm.SilentRefusal | src/components/PatientForm.tsx:118-157 | the schema refuses the values with no error element on screen exactly when name, age and gender pass and some field of a present emergency contact is blank |
| PatientForm.NamedBlankContactRefusedSilently | src/components/PatientForm.tsx:321-347 | a new patient with a name but the blank contact is refused, and none of its issues belongs to a field that renders an error |
| PatientForm.NewPatientDefaultsFilled | src/components/PatientForm.tsx:62-74 | filling the name and the three contact fields makes the blank form valid |
| PatientForm.EditUntouchedResubmits | src/components/PatientForm.tsx:46-101 | submitting the form opened on a valid patient, untouched, sends back that patient's own fields |
| PatientForm.AddItem | src/components/PatientForm.tsx:77-85 | the old list is kept as a prefix, at most one entry is added, and the result holds exactly the old entries plus the trimmed item when that is non-empty; a blank or already-listed trimmed item leaves the list unchanged |
| PatientForm.AddItemNoop | src/components/PatientForm.tsx:82-84 | a blank item, or one whose trim is already listed, changes nothing |
| PatientForm.AddItemIdempotent | src/components/PatientForm.tsx:82-83 | adding the same item twice is adding it once |
| PatientForm.AddItemKeepsWellFormed | src/components/PatientForm.tsx:82-83 | adding keeps the list free of duplicates and of blank or untrimmed entries |
| PatientForm.RemoveItem | src/components/PatientForm.tsx:87-93 | an in-range index drops exactly that entry and keeps the rest in order; an out-of-range index leaves the list unchanged |
| PatientForm.RemoveItemKeepsWellFormed | src/components/PatientForm.tsx:92 | removing keeps the list well formed, and an in-range removal shortens it by one and drops that entry's value |
| PatientForm.Submit | src/components/PatientForm.tsx:95-102 | something is submitted exactly when the schema accepts; it carries the validated fields with the three lists replaced by the locally held lists |
| PatientForm.SubmitIgnoresFormLists | src/components/PatientForm.tsx:95-101 | the schema's own list fields never reach the request |
| LoginForm.BeginSubmit | src/components/LoginForm.tsx:18-21 | before login is called, loading is on and the error is cleared, the fields unchanged |
| LoginForm.FinishSubmit | src/components/LoginForm.tsx:23-30 | success navigates to "/dashboard"; failure shows the thrown message when it is non-empty, else "Login failed", and stays put; loading ends and the fields are unchanged |
| LoginForm.SubmitOutcome | src/components/LoginForm.tsx:18-31 | a rejected login keeps the session, stays put and shows the server's `error` or "Login failed"; an accepted one stores the token, clears the error and goes to "/dashboard" |
| LoginForm.RejectedLoginKeepsInput | src/components/LoginForm.tsx:10-41 | typing an email and password into the fresh form and having the login rejected keeps both fields and the hidden password, stops loading, shows the server's non-empty `error` text, else "Login failed", and stays on the page |
| LoginForm.EmailChanged | src/components/LoginForm.tsx:33-36 | only the email takes the new value; the error is cleared |
| LoginForm.PasswordChanged | src/components/LoginForm.tsx:38-41 | only the password takes the new value; the error is cleared |
| LoginForm.Focus | src/components/LoginForm.tsx:43-45 | focus clears the error and nothing else |
| LoginForm.ToggleVisibility | src/components/LoginForm.tsx:116-119 | the toggle flips password visibility and clears the error, fields untouched |
| LoginForm.ToggleTwice | src/components/LoginForm.tsx:116-119 | toggling twice restores the visibility, with the error cleared |

## Left out

- Rendering (JSX, styling, icons) and src/components/PatientCard.tsx, whose only logic is a locale-dependent date format.
- The network: the axios transport and the base URL read from the environment (src/services/api.ts:5-6). Server replies are inputs of type `Reply<T>`.
- Real storage I/O, `JSON.parse` and `JSON.stringify`. Storage is a map; the user parser and serializer are function parameters. The parser's outcomes are malformed, `null`, or a user object. A stored JSON value of another shape (a number, a bare string) is not modelled.
- Router navigation and `window.location`: navigation is an emitted target path, and the absence of `window` is a None location.
- Asynchrony: each handler is one atomic step. Overlapping loads, last-response-wins races, stale closures over `patients`, and the interleaving of the two rehydration phases with other events are not modelled. The intermediate `loading`/`formLoading` true states of the dashboard are folded into the single step.
- zod and react-hook-form internals: the schema is encoded directly as a predicate. The library's default message for an invalid gender is not modelled.
- Decimal.NatToString: ids are unbounded integers; JavaScript loses precision above 2^53 and renders |id| ≥ 1e21 in exponent form, so paths for such ids differ from the model's plain digits.
- PatientForm.Validate: age is an `int`. The schema also accepts non-integral numbers and rejects NaN, which an unbounded integer cannot show.
- `console.error` logging, the `useAuth` outside-provider error, and `handleLogout`'s navigation.
- `authApi.register`, `authApi.getAllUsers` and `patientApi.health`: path wrappers with no client logic.
- The type files src/types/patient.ts and src/types/auth.ts carry no behaviour and appear only as datatypes.
