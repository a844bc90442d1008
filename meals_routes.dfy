/** What `POST /meals` does to the tables and what it answers: the session
    cookie is resolved to a user, and the meal is recorded for that user.
    The meal's `randomUUID()` id and the insertion time are parameters. */
module MealsRoutes {
  import opened Records
  import UsersRoutes

  const InvalidSession := "Invalid or expired session"

  /** `POST /meals`: answer 401 when no user holds `token`; otherwise insert
      one meal owned by the first user that holds it. */
  function CreateMeal(t: Tables, token: Uuid, name: string, description: string,
                      date: Timestamp, isOnDiet: bool, newId: Uuid, now: Timestamp): (o: Outcome)
    ensures (forall i :: 0 <= i < |t.users| ==> t.users[i].sessionId != token) ==>
      o.tables == t && o.reply == Reply(401, Message(InvalidSession), None)
    ensures (exists i :: 0 <= i < |t.users| && t.users[i].sessionId == token) ==>
      && o.reply == Reply(201, Empty, None)
      && o.tables.users == t.users
      && |o.tables.meals| == |t.meals| + 1
      && o.tables.meals[..|t.meals|] == t.meals
      && var m := o.tables.meals[|t.meals|];
         && m.id == newId
         && m.name == name && m.description == description
         && m.date == date && m.isOnDiet == isOnDiet
         && m.createdAt == now && m.updatedAt == now
         && exists k :: 0 <= k < |t.users| && t.users[k].sessionId == token
              && (forall j :: 0 <= j < k ==> t.users[j].sessionId != token)
              && m.userId == t.users[k].id
  {
    match FirstBySession(t.users, token)
    case None => Outcome(t, Reply(401, Message(InvalidSession), None))
    case Some(k) =>
      var meal := Meal(newId, t.users[k].id, name, description, date, isOnDiet, now, now);
      Outcome(t.(meals := t.meals + [meal]), Reply(201, Empty, None))
  }

  /** Meal creation with a fresh meal id keeps every invariant of the
      tables; in particular the new meal's owner exists. */
  lemma CreateMealKeepsValid(t: Tables, token: Uuid, name: string, description: string,
                             date: Timestamp, isOnDiet: bool, newId: Uuid, now: Timestamp)
    requires Valid(t)
    requires MealIdUnused(t.meals, newId)
    ensures Valid(CreateMeal(t, token, name, description, date, isOnDiet, newId, now).tables)
  {
  }

  /** Under unique tokens the new meal belongs to the one user who holds
      the token: any user holding it has the meal's `user_id` as id. */
  lemma CreateMealOwnerHoldsToken(t: Tables, token: Uuid, name: string, description: string,
                                  date: Timestamp, isOnDiet: bool, newId: Uuid, now: Timestamp, k: nat)
    requires TokensUnique(t.users)
    requires k < |t.users| && t.users[k].sessionId == token
    ensures var o := CreateMeal(t, token, name, description, date, isOnDiet, newId, now);
      o.reply.status == 201 && o.tables.meals[|t.meals|].userId == t.users[k].id
  {
  }

  /** The cookie issued by a successful registration authenticates a meal
      for the newly registered user (the flow of the meal-creation test). */
  lemma RegisterThenCreateMeal(t: Tables, userName: string, email: string, userId: Uuid, token: Uuid,
                               name: string, description: string, date: Timestamp, isOnDiet: bool,
                               mealId: Uuid, now: Timestamp)
    requires Valid(t)
    requires UserIdUnused(t.users, userId) && TokenUnused(t.users, token)
    requires forall i :: 0 <= i < |t.users| ==> t.users[i].email != email
    ensures var reg := UsersRoutes.Register(t, userName, email, userId, token);
      var o := CreateMeal(reg.tables, reg.reply.cookie.value.value, name, description, date, isOnDiet, mealId, now);
      && o.reply.status == 201
      && o.tables.meals[|t.meals|].userId == userId
  {
    var reg := UsersRoutes.Register(t, userName, email, userId, token);
    UsersRoutes.RegisterKeepsValid(t, userName, email, userId, token);
    CreateMealOwnerHoldsToken(reg.tables, token, name, description, date, isOnDiet, mealId, now, |t.users|);
  }

  /** After a session rotation the old cookie is refused with 401 and the
      new one records meals for the same user. */
  lemma RotatedSessionGatesMeals(t: Tables, email: string, newToken: Uuid, k: nat,
                                 name: string, description: string, date: Timestamp, isOnDiet: bool,
                                 mealId: Uuid, now: Timestamp)
    requires Valid(t)
    requires TokenUnused(t.users, newToken)
    requires k < |t.users| && t.users[k].email == email
    ensures var s := UsersRoutes.CreateSession(t, email, newToken);
      var stale := CreateMeal(s.tables, t.users[k].sessionId, name, description, date, isOnDiet, mealId, now);
      var current := CreateMeal(s.tables, newToken, name, description, date, isOnDiet, mealId, now);
      && stale == Outcome(s.tables, Reply(401, Message(InvalidSession), None))
      && current.reply.status == 201
      && current.tables.meals[|t.meals|].userId == t.users[k].id
  {
    UsersRoutes.CreateSessionRevokesOldToken(t, email, newToken, k);
    UsersRoutes.CreateSessionRotatesOneUser(t, email, newToken, k);
  }
}
