# Tutor Planet: sign-up, login and account access

A Dafny model of the authentication and authorisation core of the Tutor
Planet web application (`tutor_app/app.py`). Tutors sign up with a name, an
email and a password. They log in with email and password, and may then open
their own account page and no one else's.

The model has two pieces of state:

- **The tutor table.** A sequence of `Tutor` rows in insertion order. The
  `email` column is unique. Keys are assigned the way SQLite assigns an
  `INTEGER PRIMARY KEY` declared without `AUTOINCREMENT`: one more than the
  largest key present, or 1 in an empty table.
- **One client's session.** The keys `current_user_id` and
  `current_user_type`. Each key is missing, present and holding `None`, or
  holding a value (`Slot = Missing | Null | Set(v)`).

Modules:

- `TutorStore` (`store.dfy`) holds the table. It defines lookups by
  credentials and by id, and an insert that commits or, on a duplicate email,
  is rolled back.
- `Auth` (`auth.dfy`) holds the session. It defines the session a login
  attempt leaves behind, the account handler's session initialisation, the
  ordered access decision, and the page the account handler answers.
- `TutorApp` (`app.dfy`) defines the class `App`. Its fields are the table
  and the session. Its methods are the handlers that change them: `Signup`,
  `Login`, `Account` and `Seed`. Each method is proved against the functions
  above and keeps the invariant `Valid()`: unique emails, increasing positive
  keys, and a session in one of three states (untouched, logged out, or
  logged in as a tutor).
- `Scenarios` (`scenarios.dfy`) replays what `tests/test_app.py` asserts,
  plus a full log-in-then-browse session, using only the class contracts.

The account handler reads `current_user_type` unconditionally (line 127).
So a session whose `current_user_id` key is present but whose type key is
missing would raise a `KeyError`. The model keeps this outcome as
`Page.KeyError` and proves that no consistent session reaches it.

## Model

| member | source | states |
|---|---|---|
| `TutorStore.MaxId` | tutor_app/app.py:30 | the result is at least every key in the table and is one of them; it is 0 for an empty table |
| `TutorStore.NextId` | tutor_app/app.py:30 | a new key is positive and larger than every existing key, so it clashes with none; it is 1 in an empty table |
| `TutorStore.FindByCredentials` | tutor_app/app.py:97 | a found row is in the table and matches email and password exactly; nothing is found iff no row matches both |
| `TutorStore.FindById` | tutor_app/app.py:136 | a found row is in the table and has the requested key; nothing is found iff no row has that key |
| `TutorStore.Insert` | tutor_app/app.py:66-76 | the integrity error happens iff the email is already taken, and then nothing changes; otherwise exactly one row is appended, holding the given name, email and password and a fresh key; unique emails and increasing keys are preserved |
| `TutorStore.LoginResolvesUnique` | tutor_app/app.py:97 | since emails are unique (line 32), the credentials of any row resolve to that row and to no other |
| `TutorStore.FindByIdFindsRow` | tutor_app/app.py:136 | since keys are distinct, looking up a row's key yields that row |
| `TutorStore.SecondInsertRejected` | tutor_app/app.py:66-76 | of two sign-ups with one fresh email, the first succeeds and the second gets the integrity error; the only row with that email is the first one, with the first name |
| `Auth.LoginSession` | tutor_app/app.py:94-105 | after a login attempt the session is consistent; the id is set iff some row matches both credentials, and then it is that row's id with type "Tutor"; otherwise both keys are None, whatever the session held before |
| `Auth.Initialise` | tutor_app/app.py:122-124 | afterwards the id key is present; a session without it gets both keys set to None; a session that had it is untouched; a consistent session stays consistent and has the type key |
| `Auth.Decide` | tutor_app/app.py:130-144 | access is allowed iff the id is the requested one and the type is "Tutor"; not logged in iff the id is None; other tutor iff a Tutor with a different id; other principal iff an id with a type other than "Tutor" |
| `Auth.AccountView` | tutor_app/app.py:122-144 | the account page is shown iff the session holds the requested id with type "Tutor" and the row exists, and it shows that row; not found iff logged in as the requested tutor whose row is gone; KeyError iff the id key is present and the type key missing, never for a consistent session |
| `Auth.EveryDenialLooksAlike` | tutor_app/app.py:130-144 | every denial reason gives the same permission-denied page; a session not logged in as the requested tutor always gets it |
| `Auth.MissingKeysLikeLoggedOut` | tutor_app/app.py:122-132 | a session without the id key is initialised to None/None and answered exactly like a logged-out one: permission denied |
| `Auth.LoginThenAccount` | tutor_app/app.py:94-137 | after a successful login by a tutor whose row is in a valid table, that tutor's own account page is shown and every other id is refused |
| `Auth.FailedLoginDenies` | tutor_app/app.py:94-109 | after a login with no matching row, both keys are None and every account request is refused |
| `TutorApp.App.Signup` | tutor_app/app.py:61-82 | a fresh email appends exactly one row with a new key and gives the success message; a taken email leaves the table unchanged and gives the in-use message; a store fault rolls back and gives the generic error; the session is never changed |
| `TutorApp.App.Login` | tutor_app/app.py:90-109 | the session becomes `LoginSession` of the table; the reply carries the success message and the id exactly when the id key is set; otherwise the failure message, no id, and both keys None; the table is unchanged |
| `TutorApp.App.Account` | tutor_app/app.py:112-144 | the session becomes its initialised form and nothing else changes; the page is `AccountView` of the old session |
| `TutorApp.App.Seed` | tutor_app/app.py:148-161 | the table holds exactly the seed rows in order, with keys 1, 2; the session is untouched |
| `Scenarios.SeededTable` | tests/test_app.py:38-43 | after seeding, the table is John Doe (id 1) and Jane Smith (id 2) |
| `Scenarios.SignupFreshEmail` | tests/test_app.py:65-76 | signing up Samantha Doe after seeding succeeds and adds her as id 3 |
| `Scenarios.SignupTakenEmail` | tests/test_app.py:79-99 | signing up with John Doe's email gives the in-use message and leaves his row, name included, unchanged |
| `Scenarios.LoginThenBrowse` | tutor_app/app.py:85-144 | John logs in as id 1, sees his own account, is refused Jane's, and after a failed login is refused his own |

## Left out

- GET branches, `render_template`, `jsonify` and HTTP status codes. Pages and replies are datatypes and message constants.
- The routes `index`, `browse_tutors` and `tutor_profile`. They only query and render. Their lookups are `FindById` and the plain table.
- SQLAlchemy engine, configuration, `db.session` mechanics and logging. The store is an abstract table whose insert commits or rolls back.
- `TutorApp.App.Signup`: a failure of the store other than the email constraint (`except Exception`) cannot be predicted. It is a boolean parameter, `storeFault`, that selects the rollback path.
- Missing form fields. `request.form[...]` failing is Flask's behaviour, not this application's.
- Logout. The application has no logout route.
- Password hashing. Passwords are stored and compared as plain strings, exactly.
- The 100-character length of the string columns. SQLite does not enforce it.
- A session holding only one of the two keys mid-request. The handlers write both keys one after the other before answering, and requests of one client are handled one at a time. The model writes the two keys as two steps inside one method.
- Concurrent sign-ups with the same email. They rely on the store's atomic unique constraint. The model is sequential.
- The earlier snapshot `app.py` at the repository root and `tutor_app/static/script.js`. They hold no authentication logic.
- Sign-up answers only with a message (tutor_app/app.py:70), not the new key; `Signup` returns the message.
- `NextId`: keys are unbounded naturals. SQLite's `tutor_id` is a 64-bit integer; once the largest key is 2^63-1, SQLite tries random unused keys or fails. That behaviour at the 64-bit limit is not modelled.
