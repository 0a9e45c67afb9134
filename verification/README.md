# Mergington High School activities: roster, sessions and page state

This project models the two stateful parts of the activity sign-up system.

The first is the API server. It holds an ordered list of activities, each with a list of student
emails, and a store that maps session tokens to admin usernames. Admins log in with a
username and password. Only a logged-in admin may sign a student up for an activity or
unregister one, and an activity is named by its position in the list.

The second is the browser page. It keeps a belief about whether the visitor is an admin
(`isAdmin`, `currentUser`), an admin panel, a message banner and the rendered activity list.
Each handler takes the outcome of its request and moves this state. Each one also reports
whether it asks for the activity list to be fetched and rendered again.

Modules:

- `Wrappers` (wrappers.dfy): `Option`.
- `Roster` (roster.dfy): the server. It holds the list operations `Enrolled` (append if absent)
  and `Withdrawn` (remove the first occurrence), and the pure lookups `CurrentUser` and
  `RequireAdmin`. Its class `Server` has the fields `activities: seq<Activity>` and
  `sessions: map<Token, string>`. `Valid()` is the server's invariant. It says the catalogue
  (names, descriptions, schedules, capacities and their order) is always the initial one, that no
  student list holds an email twice or an empty name, and that no token is empty.
- `View` (view.dfy): what a successful fetch renders, as the pure function `Render(activities, isAdmin)`.
  This covers the cards, the participant rows and removal buttons, the selector options, and
  whether the signup form or the admin-only notice is shown.
- `Client` (client.dfy): the class `Page`, holding the page's state, and its handlers. It has
  three invariants. `Coherent()` says that when not admin there is no user. `PanelAgrees()` says the
  admin panel matches the session belief. `Synced()` says the signup form, the notice and every
  rendered removal button match the session belief. The login, logout, toggle, signup and
  unregister handlers each state that they preserve `Synced()` whenever they do not ask for a
  refetch, and a successful fetch restores it. `CheckAdminStatus` is the exception: it changes
  `isAdmin` without re-rendering, and it is only called from `InitializeApp`, which always
  follows it with the fetch.

Behaviour of the code that the model keeps:

- On logout, a non-2xx response changes nothing and shows no message. Only a thrown error shows
  "Logout failed. Please try again." (src/static/app.js:107-117).
- The activity fetch never checks `response.ok`. A non-2xx JSON body is decoded and then fails
  to render, after the list and the selector have been cleared. So the failure notice appears and
  the selector keeps only its placeholder. Only a thrown fetch or decode leaves the selector as it
  was (src/static/app.js:148-155, 209-211).
- The page starts as not admin (`isAdmin = false`, `currentUser = null`) before any status check
  resolves (src/static/app.js:15-16).
- A required form field sent as the empty string counts as missing in FastAPI's request
  validation, so it is answered with 422 before the endpoint body runs. An admin's signup or
  unregister with an empty `name` gets 422 even for an out-of-range id, because the 401 from
  the `require_admin` dependency comes first and the 404 check is in the endpoint body. A login
  with an empty username or password gets 422, never "Invalid credentials" (src/app.py:131,
  172, 183).
- The server never checks `max_participants`, so a student list can outgrow its capacity and the
  page then shows a negative number of spots.

Two Python truthiness details are modelled. An empty session token never authenticates
(`session_token and ...`). `require_admin` refuses an empty username (`not current_user`),
while `admin_status` reports any non-`None` user as authenticated.

## Model

| member | source | states |
|---|---|---|
| `Roster.Enrolled` | src/app.py:176-178 | the name is in the result; the old list is a prefix of the result; the length grows by one exactly when the name was absent |
| `Roster.Withdrawn` | src/app.py:187-189 | an absent name leaves the list unchanged; a present one shortens it by one; the multiset loses exactly one copy of the name |
| `Roster.CurrentUser` | src/app.py:43-47 | a user is found iff the token is present, non-empty and a key of the session map, and it is that key's username; with no empty key, iff the token is a key |
| `Roster.RequireAdmin` | src/app.py:49-56 | passes iff a non-empty username is given and returns it; otherwise 401 "Authentication required" |
| `Roster.EnrolledIdempotent` | src/app.py:177-178 | signing the same name up twice equals signing it up once |
| `Roster.WithdrawnRemovesFirst` | src/app.py:188-189 | when position k holds the first occurrence of the name, the result is the list with exactly position k removed, order kept |
| `Roster.WithdrawnUndoesEnrolled` | src/app.py:176-189 | unregistering a name just signed up (it was absent before) restores the original list |
| `Roster.EnrolledKeepsDistinct` | src/app.py:177-178 | signup keeps a duplicate-free list duplicate-free |
| `Roster.WithdrawnKeepsDistinct` | src/app.py:188-189 | unregister keeps a duplicate-free list duplicate-free, and afterwards the name is not in it at all |
| `Roster.Server.constructor` | src/app.py:59-123 | the server starts with the nine initial activities and no sessions, and the invariant holds |
| `Roster.Server.CreateSessionToken` | src/app.py:36-41 | returns the new token and adds exactly that token, mapped to the username |
| `Roster.Server.User` | src/app.py:43-47 | under the invariant, a user is found iff the cookie token is a session key, and it is that session's username |
| `Roster.Server.Login` | src/app.py:130-149 | 422 when the username or the password is empty; otherwise succeeds iff the credentials map has the username with that password; success adds exactly one new token mapped to the username and answers "Login successful" with the user; any other failure is 401 "Invalid credentials"; every failure leaves sessions unchanged; activities untouched |
| `Roster.Server.Logout` | src/app.py:151-159 | always answers "Logout successful"; removes the caller's token if present; every other session is kept unchanged |
| `Roster.Server.Status` | src/app.py:161-164 | `authenticated` iff the token is a session key, iff `user` is present, and `user` is that session's username |
| `Roster.Server.GetActivities` | src/app.py:166-168 | the listing always has the initial catalogue: nine activities in the initial order, so positional ids stay stable |
| `Roster.Server.Signup` | src/app.py:171-180 | 401 without an admin session; otherwise 422 for an empty name; otherwise 404 "Activity not found" for an id outside 0..len-1; success iff all three checks pass, with no capacity check; on success only that activity's students change, to Enrolled, and the answer names the student and activity; every error leaves all activities unchanged |
| `Roster.Server.Unregister` | src/app.py:182-191 | the same three gates in the same order; on success only that activity's students change, to Withdrawn, the name is then absent, and the answer names the student and activity; success even when the name was not registered |
| `View.Rows` | src/static/app.js:170-178 | one row per student in order, with that email; a removal button carrying (activity index, email) iff admin |
| `View.RenderCard` | src/static/app.js:159-191 | the card shows the activity's name, description and schedule; spots left = capacity minus student count; "No participants yet" iff no students, else the rows as above |
| `View.Cards` | src/static/app.js:158-193 | one card per activity, in order, each showing the activity at its own list position |
| `View.Choices` | src/static/app.js:195-199 | one option per activity, in order, with value = its position and text = its name |
| `View.Render` | src/static/app.js:152-208 | one card per activity at its position; the selector is the placeholder followed by one option per activity; the signup form is visible iff admin and the admin-only notice iff not |
| `View.RenderAffordancesMatch` | src/static/app.js:175 | on every rendered participant row, a removal button is present iff admin |
| `View.AffordancesIffAdmin` | src/static/app.js:165-181 | some removal button is rendered iff admin and some activity has a participant |
| `View.AffordanceTargetsShownStudent` | src/static/app.js:175 | a rendered removal button carries its card's position and that row's student, so an unregister against the same list removes one entry |
| `View.ChessClubLoggedOut` | src/static/app.js:158-208 | one activity with capacity 10 and two students, logged out: 8 spots, two plain rows, signup form hidden, notice shown |
| `View.ChessClubAsAdmin` | src/static/app.js:158-208 | the same activity as admin: each row carries its (0, email) button, signup form shown, notice hidden |
| `Client.DetailOr` | src/static/app.js:92 | a present, non-empty detail is shown as it is; an absent or empty one gives the fallback text |
| `Client.WelcomeText` | src/static/app.js:45 | "Welcome, <user>!", with a missing user printed as "null" |
| `Client.Page.constructor` | src/static/app.js:15-16 | the page starts not admin, with no user, no banner and the list as loaded |
| `Client.Page.ShowAdminInterface` | src/static/app.js:42-47 | hides the login form, shows the admin info with the welcome text, labels the toggle "Admin Panel" |
| `Client.Page.HideAdminInterface` | src/static/app.js:50-54 | hides the login form and the admin info, labels the toggle "Admin Login" |
| `Client.Page.ShowMessage` | src/static/app.js:121-129 | the banner becomes this text and kind, replacing any earlier one |
| `Client.Page.UpdateUIForAdminStatus` | src/static/app.js:132-143 | signup form hidden iff not admin, admin-only notice hidden iff admin |
| `Client.Page.CheckAdminStatus` | src/static/app.js:19-39 | admin iff a 2xx body says authenticated, with its user; a non-2xx body or a thrown error gives not admin with no user; the panel then agrees with the session |
| `Client.Page.ToggleAdmin` | src/static/app.js:57-63 | does nothing when admin, otherwise flips the login form's visibility; keeps the panel invariant and `Synced()` |
| `Client.Page.SubmitLogin` | src/static/app.js:66-98 | a 2xx response sets admin and the returned user, shows "Login successful!", resets the form and asks for exactly one refetch; a non-2xx response shows the detail or "Login failed"; a thrown error shows "Login failed. Please try again."; neither changes the session or panel, and neither asks for a refetch |
| `Client.Page.ClickLogout` | src/static/app.js:101-118 | a 2xx response sets not admin with no user, shows "Logout successful!" and asks for one refetch; a non-2xx response changes nothing at all; a thrown error only shows "Logout failed. Please try again." |
| `Client.Page.FetchActivities` | src/static/app.js:146-214 | a decoded list sets cards, selector and form visibility to `Render` of it under the current admin flag, which restores `Synced()`; a non-2xx body shows the failure notice with only the placeholder option left; a thrown error shows the notice with the selector untouched |
| `Client.Page.HandleUnregister` | src/static/app.js:217-243 | a 2xx response shows the server's message and asks for exactly one refetch; a non-2xx response shows the detail or "An error occurred"; a thrown error shows "Failed to unregister. Please try again."; no refetch on failure; keeps `Synced()` |
| `Client.Page.SubmitSignup` | src/static/app.js:246-274 | a 2xx response shows the server's message, resets the form and asks for exactly one refetch; a non-2xx response shows the detail or "An error occurred"; a thrown error shows "Failed to sign up. Please try again."; no refetch on failure; keeps `Synced()` |
| `Client.Page.InitializeApp` | src/static/app.js:277-282 | runs the status check, then the fetch: admin iff a 2xx status body says authenticated, with its user (otherwise no user), and the panel agrees; a decoded listing sets cards and selector to `Render` under that flag, so the page is `Synced()`; a non-2xx listing leaves the failure notice and only the placeholder option; a thrown one leaves the notice with the selector untouched; on a failed listing the form visibility is unchanged |

## Left out

- The second `unregister_from_activity` (src/app.py:194-213) is dead code. It is registered on the same path after the index-based route, which always matches first. It also treats the list of activities as a dictionary with a `participants` key.
- `load_teacher_credentials` reads teachers.json from disk. The credentials map is a parameter of `Login` instead, and teachers.json is not part of this model.
- `secrets.token_urlsafe(32)` is random. `Login` and `CreateSessionToken` take the token as a parameter, with a precondition that it is non-empty and not yet in use.
- Cookie attributes (`httponly`, `max_age`), cookie deletion, FastAPI routing and `Depends`/`Form` plumbing, the static-file mount and the `/` redirect are not modelled.
- FastAPI request validation is modelled only for empty form fields. A non-integer activity id would give a 422; activity ids are Dafny integers. A form field left out of the request is the same case as an empty one, so the `string` parameters stand for both.
- `FieldRequired` carries the detail "Field required" as a string. FastAPI's 422 actually carries a list of validation errors, which is not modelled (see the next line).
- Building requests is abstracted away: URLs, `FormData`, and the activity id taken from the selector or a button attribute. Each handler takes the outcome of its request as a parameter.
- An error `detail` that is not a string is not modelled (FastAPI's 422 gives a list, which the page would print as text).
- DOM details are reduced to the abstract view: `innerHTML` strings, `classList`, listener wiring and the form inputs. A form reset is reported as the `resetForm` result.
- `View.Rows`, `View.AffordanceTargetsShownStudent`: the page escapes nothing. It puts emails, names, descriptions and schedules into `innerHTML` as they are (src/static/app.js:160-186), and the server stores any non-empty `name` (src/app.py:172-178). So the view model matches the page only for text without `"`, `<` or `&`. For example, a button for `a"b@x.com` ends its `data-email` attribute early, so `getAttribute` (src/static/app.js:220) returns `a`. The unregister then asks for `a`, which is absent, and the server answers success while removing nothing. A `<` in an email injects markup into the page. HTML parsing is not modelled.
- The initial markup comes from index.html, which is not part of this model. The `Page` constructor takes it as a parameter.
- The banner's 5-second dismissal timer and `console.error` logging are not modelled.
- Concurrency is not modelled. A handler's `refetch` result stands for its un-awaited `fetchActivities()` call, which the caller then runs as `FetchActivities`. Interleaved or out-of-order refetches are asynchronous behaviour, not sequential logic.
- The server model handles requests one at a time. FastAPI runs the plain `def` endpoints on a thread pool, and signup checks membership before it appends (src/app.py:177-178). So two simultaneous signups of the same email could both append it, which would break the duplicate-free part of `Valid()`.
