/** The two tables of the diet service, the shape of an HTTP reply, the
    knex-style queries the route handlers issue, and the invariants the
    handlers keep between requests. */
module Records {

  /** A `randomUUID()` value: user ids, meal ids and session tokens. */
  type Uuid = string

  /** A date or a bookkeeping timestamp, kept opaque (epoch milliseconds). */
  type Timestamp = int

  datatype Option<T> = None | Some(value: T)

  /** A row of `users`. Every user is created by registration, which always
      sets `sessionId`, so the model keeps it non-null. */
  datatype User = User(id: Uuid, name: string, email: string, sessionId: Uuid)

  /** A row of `meals`: uuid primary key, non-null `user_id` referencing
      `users`, name, description, date, diet flag, and the two timestamps
      that `table.timestamps(true, true)` fills with the insertion time. */
  datatype Meal = Meal(
    id: Uuid,
    userId: Uuid,
    name: string,
    description: string,
    date: Timestamp,
    isOnDiet: bool,
    createdAt: Timestamp,
    updatedAt: Timestamp)

  /** The whole database as the handlers see it. */
  datatype Tables = Tables(users: seq<User>, meals: seq<Meal>)

  // ---------------------------------------------------------------------
  // Replies

  /** The JSON body sent back: nothing, `{ message }` or `{ error }`. */
  datatype Body = Empty | Message(message: string) | Error(error: string)

  /** A `Set-Cookie` issued by `reply.setCookie(name, value, { path, maxAge })`. */
  datatype Cookie = Cookie(name: string, value: Uuid, path: string, maxAge: nat)

  /** What a handler answers: status code, body and the cookie it set, if any. */
  datatype Reply = Reply(status: nat, body: Body, cookie: Option<Cookie>)

  /** The database after a handler has run, and what it answered. */
  datatype Outcome = Outcome(tables: Tables, reply: Reply)

  /** Seven days, in seconds. */
  const SessionMaxAge: nat := 60 * 60 * 24 * 7

  /** The session cookie both user handlers set for a fresh token. */
  function SessionCookie(token: Uuid): (c: Cookie)
    ensures c.name == "sessionId" && c.value == token && c.path == "/"
    ensures c.maxAge == 604800
  {
    Cookie("sessionId", token, "/", SessionMaxAge)
  }

  // ---------------------------------------------------------------------
  // Queries

  /** `.where(...).first()`: the index of the first row, in table order,
      that satisfies `matches`, or None when no row does. */
  function First<T>(rows: seq<T>, matches: T -> bool): (r: Option<nat>)
    ensures r.Some? ==> r.value < |rows| && matches(rows[r.value])
    ensures r.Some? ==> forall j :: 0 <= j < r.value ==> !matches(rows[j])
    ensures r.None? <==> forall j :: 0 <= j < |rows| ==> !matches(rows[j])
  {
    if |rows| == 0 then None
    else if matches(rows[0]) then Some(0)
    else match First(rows[1..], matches)
      case None => None
      case Some(k) => Some(k + 1)
  }

  /** `knex('users').where('email', email).first()` */
  function FirstByEmail(users: seq<User>, email: string): (r: Option<nat>)
    ensures r.Some? ==> r.value < |users| && users[r.value].email == email
    ensures r.Some? ==> forall j :: 0 <= j < r.value ==> users[j].email != email
    ensures r.None? <==> forall j :: 0 <= j < |users| ==> users[j].email != email
  {
    First(users, (u: User) => u.email == email)
  }

  /** `knex('users').where('session_id', token).first()` */
  function FirstBySession(users: seq<User>, token: Uuid): (r: Option<nat>)
    ensures r.Some? ==> r.value < |users| && users[r.value].sessionId == token
    ensures r.Some? ==> forall j :: 0 <= j < r.value ==> users[j].sessionId != token
    ensures r.None? <==> forall j :: 0 <= j < |users| ==> users[j].sessionId != token
  {
    First(users, (u: User) => u.sessionId == token)
  }

  /** `knex('users').update({ session_id: token }).where('email', email)`:
      every row with that email gets the token, every other row is kept. */
  function SetSessionWhereEmail(users: seq<User>, email: string, token: Uuid): (r: seq<User>)
    ensures |r| == |users|
    ensures forall i :: 0 <= i < |users| ==>
      r[i].id == users[i].id && r[i].name == users[i].name && r[i].email == users[i].email
    ensures forall i :: 0 <= i < |users| && users[i].email == email ==> r[i].sessionId == token
    ensures forall i :: 0 <= i < |users| && users[i].email != email ==> r[i] == users[i]
  {
    if |users| == 0 then []
    else
      var head := if users[0].email == email then users[0].(sessionId := token) else users[0];
      [head] + SetSessionWhereEmail(users[1..], email, token)
  }

  // ---------------------------------------------------------------------
  // Invariants

  /** Registration refuses an email that is already present. */
  ghost predicate EmailsUnique(users: seq<User>) {
    forall i, j :: 0 <= i < j < |users| ==> users[i].email != users[j].email
  }

  /** User ids are fresh uuids. */
  ghost predicate UserIdsUnique(users: seq<User>) {
    forall i, j :: 0 <= i < j < |users| ==> users[i].id != users[j].id
  }

  /** Each user holds one current token, and no token is shared. */
  ghost predicate TokensUnique(users: seq<User>) {
    forall i, j :: 0 <= i < j < |users| ==> users[i].sessionId != users[j].sessionId
  }

  /** `meals.id` is the primary key. */
  ghost predicate MealIdsUnique(meals: seq<Meal>) {
    forall i, j :: 0 <= i < j < |meals| ==> meals[i].id != meals[j].id
  }

  /** `meals.user_id` references `users.id`. */
  ghost predicate HasUserId(users: seq<User>, id: Uuid) {
    exists k :: 0 <= k < |users| && users[k].id == id
  }

  ghost predicate MealsOwned(t: Tables) {
    forall i :: 0 <= i < |t.meals| ==> HasUserId(t.users, t.meals[i].userId)
  }

  ghost predicate Valid(t: Tables) {
    && EmailsUnique(t.users)
    && UserIdsUnique(t.users)
    && TokensUnique(t.users)
    && MealIdsUnique(t.meals)
    && MealsOwned(t)
  }

  // Freshness of a `randomUUID()` value with respect to the current tables.

  ghost predicate UserIdUnused(users: seq<User>, id: Uuid) {
    forall i :: 0 <= i < |users| ==> users[i].id != id
  }

  ghost predicate TokenUnused(users: seq<User>, token: Uuid) {
    forall i :: 0 <= i < |users| ==> users[i].sessionId != token
  }

  ghost predicate MealIdUnused(meals: seq<Meal>, id: Uuid) {
    forall i :: 0 <= i < |meals| ==> meals[i].id != id
  }

  /** When tokens are unique, the user a token resolves to is the only one
      holding it. */
  lemma SessionResolvesAtMostOne(users: seq<User>, token: Uuid, j: nat)
    requires TokensUnique(users)
    requires j < |users| && users[j].sessionId == token
    ensures FirstBySession(users, token) == Some(j)
  {
  }
}
