# daily-diet-api: users, sessions and session-gated meal creation

This project models the part of the daily-diet API that has state: the `users`
and `meals` tables and the three HTTP handlers that change them.

- `POST /users` registers a user. It refuses an email that is already
  registered with 400 `{ message: 'User already exists' }`. Otherwise it sets
  a `sessionId` cookie that lasts seven days, inserts the user with that token
  as `session_id`, and answers 201.
- `POST /users/session` looks the user up by email. It refuses an unknown email
  with 400 `{ error: 'User does not exist' }`. Otherwise it draws a new token,
  sets it as the cookie, overwrites `session_id` on the rows with that email,
  and answers 200.
- `POST /meals` resolves the `sessionId` cookie to the first user whose
  `session_id` equals it. If no user holds it, it answers
  401 `{ message: 'Invalid or expired session' }`. Otherwise it inserts one meal
  whose `user_id` is that user's id, with the name, description, date and diet
  flag from the body, and answers 201.

Files:

- `records.dfy` (module `Records`) holds the rows, the reply shape (status,
  body, cookie), the knex queries the handlers issue (`where(...).first()` and
  `update(...).where('email', ...)`) and the invariants of the tables: unique
  emails, unique user ids, unique session tokens, unique meal ids, and every
  meal owned by an existing user.
- `users_routes.dfy` (module `UsersRoutes`) and `meals_routes.dfy` (module
  `MealsRoutes`) say as pure functions what each handler does to the tables
  and what it answers. Lemmas beside them prove the properties the handlers
  promise.
- `app.dfy` (module `App`) holds the class `Database`. It keeps the two tables
  as mutable fields, and each handler is a method that reads the tables step by
  step and then inserts or updates a row. Each method is proved to agree with
  its pure description and to keep the invariants. A lemma over any sequence of
  requests shows that the invariants hold after every request when the uuids
  drawn are fresh.

`randomUUID()` becomes a caller-supplied value. Methods and invariant lemmas
require it to be unused: a user id not yet in `users`, a token that no user
holds, a meal id not yet in `meals`. The insertion time that fills `created_at`
and `updated_at` is a parameter too. Dates and timestamps are opaque integers.
`.first()` returns the first matching row in table order, which is insertion
order.

Registration always stores the token it puts in the cookie
(src/routes/users.routes.ts:23, 34), so `User.sessionId` is never empty.
Registration answers 201 with an empty body and the cookie; it does not return
the new user.

## Model

| member | source | states |
|---|---|---|
| Records.SessionCookie | src/routes/users.routes.ts:25-28 | the cookie is named `sessionId`, carries the given token, has path `/`, and lives 604800 seconds (7 days) |
| Records.FirstByEmail | src/routes/users.routes.ts:15 | the result is the first row with that email, and None exactly when no row has it |
| Records.FirstBySession | src/routes/meals.routes.ts:21 | the result is the first row whose `session_id` is the token, and None exactly when no row holds it |
| Records.SetSessionWhereEmail | src/routes/users.routes.ts:57-59 | every row with the email gets the new token; every row keeps its id, name and email; rows with another email are unchanged |
| Records.SessionResolvesAtMostOne | src/routes/meals.routes.ts:21 | when tokens are unique, a token resolves to the one user who holds it |
| UsersRoutes.Register | src/routes/users.routes.ts:7-38 | a known email gives 400 'User already exists' and leaves the tables unchanged; otherwise the reply is 201 with the session cookie, exactly one user (new id, given name and email, new token) is appended, and meals are unchanged |
| UsersRoutes.RegisterCookieIsStoredToken | src/routes/users.routes.ts:23-34 | registration answers 201 exactly when it appends one user, and then the cookie's token is that user's stored `session_id`, with a 604800-second lifetime |
| UsersRoutes.RegisterKeepsValid | src/routes/users.routes.ts:15-35 | with a fresh id and token, registration keeps emails, ids and tokens unique and every meal owned |
| UsersRoutes.RegisterTwiceFails | test/users.spec.ts:35-53 | registering the same email twice: the second attempt answers 400 'User already exists', changes nothing, and no two users share an email |
| UsersRoutes.CreateSession | src/routes/users.routes.ts:40-67 | an unknown email gives 400 'User does not exist' and changes nothing; otherwise the reply is 200 with the cookie for the new token, rows with that email get the token, and every other row and all meals are unchanged |
| UsersRoutes.CreateSessionRotatesOneUser | src/routes/users.routes.ts:57-59 | with unique emails, rotation changes only that user's `session_id`; its id, name and email and every other user stay the same |
| UsersRoutes.CreateSessionKeepsValid | src/routes/users.routes.ts:47-59 | rotation with a fresh token keeps every invariant of the tables |
| UsersRoutes.CreateSessionRevokesOldToken | src/routes/users.routes.ts:49-59 | after rotation the old token resolves to no user, the new token resolves to that user, and the cookie carries the stored token |
| MealsRoutes.CreateMeal | src/routes/meals.routes.ts:7-39 | a token no user holds gives 401 'Invalid or expired session' and changes nothing; otherwise the reply is 201, users are unchanged, and exactly one meal is appended after the unchanged old meals. It stores the new id, the body's name, description, date and diet flag, the insertion time, and the id of the first user holding the token |
| MealsRoutes.CreateMealKeepsValid | src/routes/meals.routes.ts:21-36 | with a fresh meal id, meal creation keeps meal ids unique and every meal owned by an existing user |
| MealsRoutes.CreateMealOwnerHoldsToken | src/routes/meals.routes.ts:21-35 | with unique tokens, a token held by a user always creates the meal (201), and the meal's `user_id` is that user's id |
| MealsRoutes.RegisterThenCreateMeal | test/meals.spec.ts:21-43 | the cookie issued at registration authenticates a meal, which is owned by the new user |
| MealsRoutes.RotatedSessionGatesMeals | src/routes/meals.routes.ts:19-27 | after a session rotation the old cookie is refused with 401 and changes nothing, and the new cookie records the meal for the same user |
| App.Database.constructor | db/migrations/20240628233418_create-meals.ts:4-11 | freshly migrated tables are empty and satisfy every invariant |
| App.Database.PostUsers | src/routes/users.routes.ts:7-38 | the method's new users table and reply are those of `Register`: 400 exactly when the email is taken, with users unchanged; otherwise the one new user is appended; the invariants are kept |
| App.Database.PostUsersSession | src/routes/users.routes.ts:40-67 | the method's new users table and reply are those of `CreateSession`: 400 exactly when no user has the email, with nothing changed; on 200, exactly that user's token is replaced; the invariants are kept |
| App.Database.PostMeals | src/routes/meals.routes.ts:7-39 | the method changes only `meals`, and its result is that of `CreateMeal`: 401 exactly when no user holds the token, with meals unchanged; on 201, one meal owned by a token holder is appended; the invariants are kept |
| App.HandleKeepsValid | src/routes/users.routes.ts:7-67 | each of the three handlers (also src/routes/meals.routes.ts:7-39), served with fresh uuids, keeps every invariant of the tables |
| App.RunKeepsValid | src/routes/users.routes.ts:15-35 | after any sequence of requests to the user handlers and the meal handler (also src/routes/meals.routes.ts:7-39) served with fresh uuids, the invariants still hold |
| App.FromEmptyTables | src/routes/meals.routes.ts:23-35 | starting from empty tables, no sequence of requests puts two users on one email or one token, or leaves a meal without an existing owner |

## Left out

- HTTP plumbing: Fastify routing, the reply builder and cookie transport. A
  reply is modelled as a status, a body and at most one cookie.
- zod body parsing and validation, including the email format check and the
  date coercion. The handlers receive parsed values, and a body that fails
  validation is not modelled.
- A request without a `sessionId` cookie. The code passes `undefined` to a
  knex `where`, and what happens then is library behaviour. Only "the token
  matches no user" is modelled.
- knex and SQLite. The tables are in-memory sequences. A failed insert, such as
  a constraint violation after the cookie is already set, is not modelled.
- Concurrency. Two registrations of one email can both pass the lookup before
  either inserts. The model serves requests one at a time, so the invariants
  hold only under that assumption.
- `randomUUID()`, which becomes a caller-supplied value required to be unused.
- Meal update, delete, get and list, and the metrics and best-streak
  computation. The tests call them, but their handlers are not in the meals
  routes file, so this model has no code to follow for them.
- The users-table migration is not part of this model. The users' columns are
  taken from what the handlers read and write.
- The environment loading in src/env/index.ts, server startup in src/server.ts,
  the migration `up`/`down` functions as executable code, and the test harness.
