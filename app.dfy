/** The service as a stateful object: the two tables live in a `Database`,
    and each route handler is a method that reads them, changes them the way
    the handler does, and answers with a `Reply`. Each method is proved to
    agree with the pure description of its handler in `UsersRoutes` and
    `MealsRoutes`, and to keep the invariants of the tables. */
module App {
  import opened Records
  import UsersRoutes
  import MealsRoutes

  class Database {
    var users: seq<User>
    var meals: seq<Meal>

    function Snapshot(): Tables
      reads this
    {
      Tables(users, meals)
    }

    ghost predicate Valid()
      reads this
    {
      Records.Valid(Snapshot())
    }

    /** Freshly migrated, empty tables. */
    constructor ()
      ensures Valid()
      ensures users == [] && meals == []
    {
      users := [];
      meals := [];
    }

    /** `POST /users` */
    method PostUsers(name: string, email: string, newId: Uuid, newToken: Uuid) returns (reply: Reply)
      requires Valid()
      requires UserIdUnused(users, newId) && TokenUnused(users, newToken)
      modifies this`users
      ensures Valid()
      ensures Outcome(Snapshot(), reply) == UsersRoutes.Register(old(Snapshot()), name, email, newId, newToken)
      ensures reply.status == 400 <==> exists i :: 0 <= i < |old(users)| && old(users)[i].email == email
      ensures reply.status == 400 ==> users == old(users)
      ensures reply.status == 201 ==> users == old(users) + [User(newId, name, email, newToken)]
    {
      var existing := FirstByEmail(users, email);
      if existing.Some? {
        reply := Reply(400, Message(UsersRoutes.UserExists), None);
        return;
      }
      var sessionId := newToken;
      var cookie := SessionCookie(sessionId);
      users := users + [User(newId, name, email, sessionId)];
      reply := Reply(201, Empty, Some(cookie));
      UsersRoutes.RegisterKeepsValid(old(Snapshot()), name, email, newId, newToken);
    }

    /** `POST /users/session` */
    method PostUsersSession(email: string, newToken: Uuid) returns (reply: Reply)
      requires Valid()
      requires TokenUnused(users, newToken)
      modifies this`users
      ensures Valid()
      ensures Outcome(Snapshot(), reply) == UsersRoutes.CreateSession(old(Snapshot()), email, newToken)
      ensures reply.status == 400 <==> forall i :: 0 <= i < |old(users)| ==> old(users)[i].email != email
      ensures reply.status == 400 ==> users == old(users)
      ensures reply.status == 200 ==>
        exists k :: 0 <= k < |old(users)| && old(users)[k].email == email
          && users == old(users)[k := old(users)[k].(sessionId := newToken)]
    {
      var user := FirstByEmail(users, email);
      if user.Some? {
        var k := user.value;
        UsersRoutes.CreateSessionRotatesOneUser(Snapshot(), email, newToken, k);
        var cookie := SessionCookie(newToken);
        users := SetSessionWhereEmail(users, email, newToken);
        reply := Reply(200, Empty, Some(cookie));
        assert users == old(users)[k := old(users)[k].(sessionId := newToken)];
      } else {
        reply := Reply(400, Error(UsersRoutes.UserMissing), None);
      }
      UsersRoutes.CreateSessionKeepsValid(old(Snapshot()), email, newToken);
    }

    /** `POST /meals` */
    method PostMeals(token: Uuid, name: string, description: string, date: Timestamp,
                     isOnDiet: bool, newId: Uuid, now: Timestamp) returns (reply: Reply)
      requires Valid()
      requires MealIdUnused(meals, newId)
      modifies this`meals
      ensures Valid()
      ensures Outcome(Snapshot(), reply) ==
        MealsRoutes.CreateMeal(old(Snapshot()), token, name, description, date, isOnDiet, newId, now)
      ensures reply.status == 401 <==> forall i :: 0 <= i < |users| ==> users[i].sessionId != token
      ensures reply.status == 401 ==> meals == old(meals)
      ensures reply.status == 201 ==>
        exists k :: 0 <= k < |users| && users[k].sessionId == token
          && meals == old(meals) + [Meal(newId, users[k].id, name, description, date, isOnDiet, now, now)]
    {
      var user := FirstBySession(users, token);
      if user.None? {
        reply := Reply(401, Message(MealsRoutes.InvalidSession), None);
        return;
      }
      var owner := users[user.value];
      meals := meals + [Meal(newId, owner.id, name, description, date, isOnDiet, now, now)];
      reply := Reply(201, Empty, None);
      MealsRoutes.CreateMealKeepsValid(old(Snapshot()), token, name, description, date, isOnDiet, newId, now);
    }
  }

  // ---------------------------------------------------------------------
  // Any sequence of requests

  /** One request to one of the three handlers, with the `randomUUID()`
      values and the insertion time it will use. */
  datatype Request =
    | PostUser(userName: string, userEmail: string, userId: Uuid, userToken: Uuid)
    | PostSession(sessionEmail: string, sessionToken: Uuid)
    | PostMeal(cookie: Uuid, mealName: string, mealDescription: string, mealDate: Timestamp,
               mealOnDiet: bool, mealId: Uuid, mealTime: Timestamp)

  function Handle(t: Tables, r: Request): Outcome {
    match r
    case PostUser(name, email, id, token) => UsersRoutes.Register(t, name, email, id, token)
    case PostSession(email, token) => UsersRoutes.CreateSession(t, email, token)
    case PostMeal(cookie, name, description, date, onDiet, id, now) =>
      MealsRoutes.CreateMeal(t, cookie, name, description, date, onDiet, id, now)
  }

  /** The uuids a request draws are not yet in use. */
  ghost predicate FreshFor(t: Tables, r: Request) {
    match r
    case PostUser(_, _, id, token) => UserIdUnused(t.users, id) && TokenUnused(t.users, token)
    case PostSession(_, token) => TokenUnused(t.users, token)
    case PostMeal(_, _, _, _, _, id, _) => MealIdUnused(t.meals, id)
  }

  /** The tables after serving `rs` one after another. */
  function Run(t: Tables, rs: seq<Request>): Tables
    decreases |rs|
  {
    if rs == [] then t else Run(Handle(t, rs[0]).tables, rs[1..])
  }

  /** Every request of `rs` draws uuids that are fresh when it is served. */
  ghost predicate FreshThroughout(t: Tables, rs: seq<Request>)
    decreases |rs|
  {
    rs == [] || (FreshFor(t, rs[0]) && FreshThroughout(Handle(t, rs[0]).tables, rs[1..]))
  }

  lemma HandleKeepsValid(t: Tables, r: Request)
    requires Valid(t) && FreshFor(t, r)
    ensures Valid(Handle(t, r).tables)
  {
    match r
    case PostUser(name, email, id, token) =>
      UsersRoutes.RegisterKeepsValid(t, name, email, id, token);
    case PostSession(email, token) =>
      UsersRoutes.CreateSessionKeepsValid(t, email, token);
    case PostMeal(cookie, name, description, date, onDiet, id, now) =>
      MealsRoutes.CreateMealKeepsValid(t, cookie, name, description, date, onDiet, id, now);
  }

  /** Whatever requests are served, emails stay unique, each user holds a
      token no one else holds, and every meal belongs to an existing user. */
  lemma {:induction false} RunKeepsValid(t: Tables, rs: seq<Request>)
    requires Valid(t) && FreshThroughout(t, rs)
    ensures Valid(Run(t, rs))
    decreases |rs|
  {
    if rs != [] {
      HandleKeepsValid(t, rs[0]);
      RunKeepsValid(Handle(t, rs[0]).tables, rs[1..]);
    }
  }

  /** Starting from freshly migrated tables, no sequence of requests ever
      puts two users on the same email or a meal on a missing user. */
  lemma FromEmptyTables(empty: Tables, rs: seq<Request>)
    requires empty.users == [] && empty.meals == []
    requires FreshThroughout(empty, rs)
    ensures var t := Run(empty, rs);
      && (forall i, j :: 0 <= i < j < |t.users| ==> t.users[i].email != t.users[j].email)
      && (forall i, j :: 0 <= i < j < |t.users| ==> t.users[i].sessionId != t.users[j].sessionId)
      && (forall i :: 0 <= i < |t.meals| ==> HasUserId(t.users, t.meals[i].userId))
  {
    RunKeepsValid(empty, rs);
  }
}
