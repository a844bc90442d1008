/** What `POST /users` (registration) and `POST /users/session` (session
    rotation) do to the tables and what they answer, with the properties
    the two handlers promise. The `randomUUID()` values they draw are
    parameters. */
module UsersRoutes {
  import opened Records

  const UserExists := "User already exists"
  const UserMissing := "User does not exist"

  /** `POST /users`: refuse an email that is already registered; otherwise
      set the session cookie for `newToken` and insert one user holding it. */
  function Register(t: Tables, name: string, email: string, newId: Uuid, newToken: Uuid): (o: Outcome)
    ensures (exists i :: 0 <= i < |t.users| && t.users[i].email == email) ==>
      o.tables == t && o.reply == Reply(400, Message(UserExists), None)
    ensures (forall i :: 0 <= i < |t.users| ==> t.users[i].email != email) ==>
      && o.reply.status == 201
      && o.reply.body == Empty
      && o.reply.cookie == Some(SessionCookie(newToken))
      && o.tables.meals == t.meals
      && o.tables.users == t.users + [User(newId, name, email, newToken)]
  {
    match FirstByEmail(t.users, email)
    case Some(_) => Outcome(t, Reply(400, Message(UserExists), None))
    case None =>
      var cookie := SessionCookie(newToken);
      var users := t.users + [User(newId, name, email, newToken)];
      Outcome(t.(users := users), Reply(201, Empty, Some(cookie)))
  }

  /** `POST /users/session`: refuse an unknown email; otherwise set the
      session cookie for `newToken` and overwrite the `session_id` of the
      rows with that email. */
  function CreateSession(t: Tables, email: string, newToken: Uuid): (o: Outcome)
    ensures (forall i :: 0 <= i < |t.users| ==> t.users[i].email != email) ==>
      o.tables == t && o.reply == Reply(400, Error(UserMissing), None)
    ensures (exists i :: 0 <= i < |t.users| && t.users[i].email == email) ==>
      && o.reply == Reply(200, Empty, Some(SessionCookie(newToken)))
      && o.tables.meals == t.meals
      && |o.tables.users| == |t.users|
      && (forall i :: 0 <= i < |t.users| && t.users[i].email == email ==>
            o.tables.users[i] == t.users[i].(sessionId := newToken))
      && (forall i :: 0 <= i < |t.users| && t.users[i].email != email ==>
            o.tables.users[i] == t.users[i])
  {
    match FirstByEmail(t.users, email)
    case Some(_) =>
      var cookie := SessionCookie(newToken);
      Outcome(t.(users := SetSessionWhereEmail(t.users, email, newToken)), Reply(200, Empty, Some(cookie)))
    case None => Outcome(t, Reply(400, Error(UserMissing), None))
  }

  // ---------------------------------------------------------------------
  // Registration

  /** The token in the cookie is the `session_id` stored for the new user. */
  lemma RegisterCookieIsStoredToken(t: Tables, name: string, email: string, newId: Uuid, newToken: Uuid)
    ensures var o := Register(t, name, email, newId, newToken);
      o.reply.status == 201 <==>
        && |o.tables.users| == |t.users| + 1
        && o.reply.cookie.Some?
        && o.reply.cookie.value.value == o.tables.users[|t.users|].sessionId
        && o.reply.cookie.value.maxAge == 604800
  {
  }

  /** Registration keeps every invariant of the tables when the two uuids it
      draws are fresh. */
  lemma RegisterKeepsValid(t: Tables, name: string, email: string, newId: Uuid, newToken: Uuid)
    requires Valid(t)
    requires UserIdUnused(t.users, newId) && TokenUnused(t.users, newToken)
    ensures Valid(Register(t, name, email, newId, newToken).tables)
  {
    var o := Register(t, name, email, newId, newToken);
    if o.tables != t {
      var users := o.tables.users;
      forall i | 0 <= i < |t.meals|
        ensures HasUserId(users, t.meals[i].userId)
      {
        assert HasUserId(t.users, t.meals[i].userId);
        var k :| 0 <= k < |t.users| && t.users[k].id == t.meals[i].userId;
        assert users[k] == t.users[k];
      }
    }
  }

  /** Registering an email twice: the second attempt fails and leaves
      exactly one user with that email. */
  lemma RegisterTwiceFails(t: Tables, name: string, name': string, email: string,
                           id: Uuid, id': Uuid, token: Uuid, token': Uuid)
    requires Valid(t)
    requires UserIdUnused(t.users, id) && TokenUnused(t.users, token)
    ensures var first := Register(t, name, email, id, token);
      var second := Register(first.tables, name', email, id', token');
      && second.reply == Reply(400, Message(UserExists), None)
      && second.tables == first.tables
      && (forall i, j :: 0 <= i < j < |second.tables.users| ==>
            second.tables.users[i].email != second.tables.users[j].email)
  {
    var first := Register(t, name, email, id, token);
    RegisterKeepsValid(t, name, email, id, token);
    if forall i :: 0 <= i < |t.users| ==> t.users[i].email != email {
      assert first.tables.users[|t.users|].email == email;
    }
  }

  // ---------------------------------------------------------------------
  // Session rotation

  /** With unique emails, rotation touches one row, and only its token. */
  lemma CreateSessionRotatesOneUser(t: Tables, email: string, newToken: Uuid, k: nat)
    requires EmailsUnique(t.users)
    requires k < |t.users| && t.users[k].email == email
    ensures var users := CreateSession(t, email, newToken).tables.users;
      && |users| == |t.users|
      && users[k].sessionId == newToken
      && users[k].id == t.users[k].id && users[k].name == t.users[k].name
      && users[k].email == t.users[k].email
      && forall j :: 0 <= j < |t.users| && j != k ==> users[j] == t.users[j]
  {
  }

  /** Rotation with a fresh token keeps every invariant of the tables. */
  lemma CreateSessionKeepsValid(t: Tables, email: string, newToken: Uuid)
    requires Valid(t)
    requires TokenUnused(t.users, newToken)
    ensures Valid(CreateSession(t, email, newToken).tables)
  {
  }

  /** Rewriting only the token of one row with a fresh token keeps tokens
      unique. */
  lemma RotationKeepsTokensUnique(users: seq<User>, users': seq<User>, newToken: Uuid, k: nat)
    requires TokensUnique(users) && TokenUnused(users, newToken)
    requires k < |users| == |users'| && users'[k].sessionId == newToken
    requires forall j :: 0 <= j < |users| && j != k ==> users'[j] == users[j]
    ensures TokensUnique(users')
  {
    forall i, j | 0 <= i < j < |users'|
      ensures users'[i].sessionId != users'[j].sessionId
    {
      if i != k && j != k {
        assert users'[i] == users[i] && users'[j] == users[j];
      } else if i == k {
        assert users'[j] == users[j];
      } else {
        assert users'[i] == users[i];
      }
    }
  }

  /** Tables whose users keep their ids and emails row by row and whose
      meals are untouched keep every invariant except token uniqueness. */
  lemma SameIdentitiesKeepValid(t: Tables, t': Tables)
    requires Valid(t)
    requires t'.meals == t.meals && |t'.users| == |t.users|
    requires forall i :: 0 <= i < |t.users| ==>
      t'.users[i].id == t.users[i].id && t'.users[i].email == t.users[i].email
    ensures EmailsUnique(t'.users) && UserIdsUnique(t'.users)
    ensures MealIdsUnique(t'.meals) && MealsOwned(t')
  {
    forall i | 0 <= i < |t'.meals|
      ensures HasUserId(t'.users, t'.meals[i].userId)
    {
      assert HasUserId(t.users, t.meals[i].userId);
      var m :| 0 <= m < |t.users| && t.users[m].id == t.meals[i].userId;
      assert t'.users[m].id == t.users[m].id;
    }
  }

  /** After a rotation the old token resolves to nobody, and the new token
      (the one in the cookie) resolves to the user with that email. */
  lemma CreateSessionRevokesOldToken(t: Tables, email: string, newToken: Uuid, k: nat)
    requires Valid(t)
    requires TokenUnused(t.users, newToken)
    requires k < |t.users| && t.users[k].email == email
    ensures var o := CreateSession(t, email, newToken);
      && FirstBySession(o.tables.users, t.users[k].sessionId) == None
      && FirstBySession(o.tables.users, newToken) == Some(k)
      && o.reply.cookie.Some? && o.reply.cookie.value.value == o.tables.users[k].sessionId
  {
    var o := CreateSession(t, email, newToken);
    var users := o.tables.users;
    CreateSessionRotatesOneUser(t, email, newToken, k);
    CreateSessionKeepsValid(t, email, newToken);
    forall j | 0 <= j < |users|
      ensures users[j].sessionId != t.users[k].sessionId
    {
      if j != k {
        assert users[j] == t.users[j];
        if j < k { assert t.users[j].sessionId != t.users[k].sessionId; }
        else { assert t.users[k].sessionId != t.users[j].sessionId; }
      } else {
        assert t.users[k].sessionId != newToken;
      }
    }
    SessionResolvesAtMostOne(users, newToken, k);
  }
}
