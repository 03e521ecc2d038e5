/** The account handlers (backend/src/controllers/authController.js) over
    an in-memory users collection: registration refuses an e-mail address
    that is already taken and stores the new user with a hashed password,
    login answers one and the same 401 whether the address or the password
    is wrong, and the two read handlers return the requester's profile and
    every user, newest first. Token signing is foreign code and is a
    parameter `issue` here. */
module AuthController {
  import opened Base
  import opened Ordering
  import opened UserModel
  import opened ErrorHandler

  const EmailTakenMessage := "A user with this email already exists"
  const BadCredentialsMessage := "Invalid email or password"

  /** The error bcrypt raises when `compare` is given no candidate. */
  const IllegalArgumentsMessage := "Illegal arguments: undefined, string"

  /** What a handler does with the request. */
  datatype AuthReply =
    | Registered(user: User, token: string)
    | LoggedIn(user: User, token: string)
    | Profile(found: Option<User>)
    | UserList(count: nat, users: seq<User>)
    | Conflict(message: string)
    | Unauthorized(message: string)
    | Failed(error: AppError)

  /** The status a handler sends itself; a failure's status is the error
      handler's. */
  function AuthStatus(r: AuthReply): (status: int)
    requires !r.Failed?
    ensures r.Registered? <==> status == 201
    ensures r.Conflict? <==> status == 409
    ensures r.Unauthorized? <==> status == 401
    ensures status in {200, 201, 401, 409}
  {
    match r
    case Registered(_, _) => 201
    case Conflict(_) => 409
    case Unauthorized(_) => 401
    case _ => 200
  }

  /** `User.findOne({ email })`, scanning identifiers below `bound` from the
      top; the filter value passes through the schema's setters first. */
  function FindByEmail(users: map<UserId, User>, email: string, bound: nat): (r: Option<UserId>)
    ensures r.Some? ==> r.value < bound && r.value in users && users[r.value].email == email
    ensures r.None? ==> forall k :: 0 <= k < bound && k in users ==> users[k].email != email
    decreases bound
  {
    if bound == 0 then None
    else if bound - 1 in users && users[bound - 1].email == email then Some(bound - 1)
    else FindByEmail(users, email, bound - 1)
  }

  /** The user whose e-mail the body names; a body without `email` matches
      nobody, since every stored user has one. */
  function UserWithEmail(users: map<UserId, User>, body: Body, bound: nat): (r: Option<UserId>)
    ensures r.Some? ==> "email" in body && r.value in users
                        && users[r.value].email == NormalizeEmail(body["email"])
    ensures r.None? && "email" in body ==>
      forall k :: 0 <= k < bound && k in users ==> users[k].email != NormalizeEmail(body["email"])
  {
    if "email" in body then FindByEmail(users, NormalizeEmail(body["email"]), bound) else None
  }

  /** The fields passed to `User.create`, with `role || 'user'`. */
  function RegisterFields(body: Body): (fields: NewUserFields)
    ensures fields.name == Lookup(body, "name")
    ensures fields.email == Lookup(body, "email")
    ensures fields.password == Lookup(body, "password")
    ensures fields.role == Some(if Truthy(Lookup(body, "role")) then body["role"] else "user")
  {
    NewUserFields(Lookup(body, "name"), Lookup(body, "email"), Lookup(body, "password"),
                  Some(if Truthy(Lookup(body, "role")) then body["role"] else "user"))
  }

  /** A registration without a role, or with an empty one, creates a plain
      user; a valid role in the body is honoured. */
  lemma RegisteredRole(body: Body, id: UserId, now: nat)
    requires NewUser(RegisterFields(body), id, now).Valid?
    ensures !Truthy(Lookup(body, "role")) ==> NewUser(RegisterFields(body), id, now).value.role == UserRole
    ensures Truthy(Lookup(body, "role")) ==>
      RoleName(NewUser(RegisterFields(body), id, now).value.role) == body["role"]
  {
  }

  /** The users below `bound`, in identifier order. */
  function AllUsers(users: map<UserId, User>, bound: nat): (r: seq<User>)
    ensures forall i :: 0 <= i < |r| ==> r[i] in users.Values
    decreases bound
  {
    if bound == 0 then []
    else AllUsers(users, bound - 1) + (if bound - 1 in users then [users[bound - 1]] else [])
  }

  /** Every user stored under an identifier below `bound` is listed. */
  lemma {:induction false} AllUsersListsEveryStored(users: map<UserId, User>, bound: nat)
    ensures forall k :: 0 <= k < bound && k in users ==> users[k] in AllUsers(users, bound)
    decreases bound
  {
    if bound > 0 {
      AllUsersListsEveryStored(users, bound - 1);
    }
  }

  /** The list has one entry per stored identifier below `bound`. */
  lemma {:induction false} AllUsersCount(users: map<UserId, User>, bound: nat)
    ensures |AllUsers(users, bound)| == |set k | 0 <= k < bound && k in users|
    decreases bound
  {
    if bound > 0 {
      AllUsersCount(users, bound - 1);
      var below := set k | 0 <= k < bound - 1 && k in users;
      if bound - 1 in users {
        assert (set k | 0 <= k < bound && k in users) == below + {bound - 1};
      } else {
        assert (set k | 0 <= k < bound && k in users) == below;
      }
    }
  }

  /** `{ createdAt: -1 }` on users. */
  predicate NewerOrSame(a: User, b: User)
  {
    a.createdAt >= b.createdAt
  }

  function NewestFirst(): (User, User) -> bool
  {
    (a: User, b: User) => NewerOrSame(a, b)
  }

  lemma NewestFirstIsTotalPreorder()
    ensures TotalPreorder(NewestFirst())
  {
  }

  /** When every identifier is below `bound`, the scan sees every user. */
  lemma IdsBelow(users: map<UserId, User>, bound: nat)
    requires forall k :: k in users ==> k < bound
    ensures |set k | 0 <= k < bound && k in users| == |users|
  {
    assert (set k | 0 <= k < bound && k in users) == users.Keys;
  }

  /** Every stored user sits under its own identifier below `bound` and
      has a hashed password. */
  ghost predicate WellStored(users: map<UserId, User>, bound: nat)
  {
    forall id :: id in users ==> id < bound && users[id].id == id && users[id].password.Hashed?
  }

  /** Every stored user satisfies the schema. */
  ghost predicate SchemaHolds(users: map<UserId, User>)
  {
    forall id :: id in users ==> UserModel.WellFormed(users[id])
  }

  lemma FreshUserIsWellStored(users: map<UserId, User>, bound: nat, u: User)
    requires WellStored(users, bound) && SchemaHolds(users)
    requires u.id == bound && UserModel.WellFormed(u) && u.password.Hashed?
    ensures WellStored(users[bound := u], bound + 1) && SchemaHolds(users[bound := u])
  {
  }

  /** No two users share an e-mail address (the unique index). */
  ghost predicate UniqueEmails(users: map<UserId, User>)
  {
    forall a, b :: a in users && b in users && a != b ==> users[a].email != users[b].email
  }

  /** Adding a user under a fresh identifier, with an e-mail no stored
      user has, keeps the addresses unique. */
  lemma FreshEmailStaysUnique(users: map<UserId, User>, id: UserId, u: User)
    requires UniqueEmails(users)
    requires id !in users
    requires forall k :: k in users ==> users[k].email != u.email
    ensures UniqueEmails(users[id := u])
  {
  }

  /** The users collection. Identifiers are handed out in increasing order
      from `nextId`. */
  class UserStore {
    var users: map<UserId, User>
    var nextId: UserId

    /** Every stored user sits under its own identifier below `nextId`,
        satisfies the schema, has a hashed password, and no two users share
        an e-mail address (the unique index). */
    ghost predicate Valid()
      reads this
    {
      WellStored(users, nextId) && SchemaHolds(users) && UniqueEmails(users)
    }

    constructor ()
      ensures Valid() && users == map[] && nextId == 0
    {
      users := map[];
      nextId := 0;
    }

    /** `register`: 409 when the e-mail is taken; otherwise the user is
        validated, saved with the password hashed under `salt`, and
        answered 201 with a token for the new identifier. */
    method Register(body: Body, now: nat, salt: nat, issue: UserId -> string)
      returns (reply: AuthReply)
      requires Valid()
      modifies this
      ensures Valid()
      ensures reply.Conflict? <==> UserWithEmail(old(users), body, old(nextId)).Some?
      ensures reply.Conflict? ==> reply.message == EmailTakenMessage
      ensures !reply.Registered? ==> users == old(users) && nextId == old(nextId)
      ensures !reply.Conflict? ==> match NewUser(RegisterFields(body), old(nextId), now)
        case Valid(u) =>
          var saved := u.(password := Hashed(Hash(u.password.text, salt)));
          && reply == Registered(saved, issue(u.id))
          && users == old(users)[u.id := saved]
          && nextId == old(nextId) + 1
        case Invalid(errors) => reply == Failed(ValidationError(errors))
      ensures reply.Registered? ==>
        && reply.user.id !in old(users)
        && users[reply.user.id] == reply.user
        && Compare(body["password"], reply.user.password)
    {
      var existing := if "email" in body then FindByEmail(users, NormalizeEmail(body["email"]), nextId) else None;
      if existing.Some? {
        return Conflict(EmailTakenMessage);
      }

      var role := if Truthy(Lookup(body, "role")) then body["role"] else "user";
      var fields := NewUserFields(Lookup(body, "name"), Lookup(body, "email"), Lookup(body, "password"), Some(role));
      var created := NewUser(fields, nextId, now);
      if created.Invalid? {
        return Failed(ValidationError(created.errors));
      }

      var doc := new UserDocument.Create(created.value);
      doc.Save(salt);
      ghost var u := created.value;
      assert fields == RegisterFields(body);
      assert doc.record == u.(password := Hashed(Hash(u.password.text, salt)));
      Insert(doc.record);
      reply := Registered(doc.record, issue(doc.record.id));
    }

    /** `save()` of a new document: the user is stored under the next
        identifier. */
    method Insert(u: User)
      requires Valid()
      requires u.id == nextId && UserModel.WellFormed(u) && u.password.Hashed?
      requires forall k :: 0 <= k < nextId && k in users ==> users[k].email != u.email
      modifies this
      ensures Valid()
      ensures users == old(users)[old(nextId) := u] && nextId == old(nextId) + 1
    {
      FreshEmailStaysUnique(users, nextId, u);
      FreshUserIsWellStored(users, nextId, u);
      users := users[nextId := u];
      nextId := nextId + 1;
    }

    /** `login`: an unknown e-mail and a wrong password get the same 401; a
        body without a password makes bcrypt throw. */
    method Login(body: Body, issue: UserId -> string) returns (reply: AuthReply)
      requires Valid()
      ensures var found := UserWithEmail(users, body, nextId);
        && (found.None? ==> reply == Unauthorized(BadCredentialsMessage))
        && (found.Some? && "password" !in body ==>
              reply == Failed(PlainError("Error", IllegalArgumentsMessage)))
        && (found.Some? && "password" in body ==>
              if Compare(body["password"], users[found.value].password)
              then reply == LoggedIn(users[found.value], issue(found.value))
              else reply == Unauthorized(BadCredentialsMessage))
      ensures reply.Unauthorized? ==> reply.message == BadCredentialsMessage
      ensures reply.LoggedIn? ==>
        && reply.user in users.Values
        && "email" in body && "password" in body
        && reply.user.email == NormalizeEmail(body["email"])
        && Compare(body["password"], reply.user.password)
    {
      var found := if "email" in body then FindByEmail(users, NormalizeEmail(body["email"]), nextId) else None;
      if found.None? {
        return Unauthorized(BadCredentialsMessage);
      }
      var user := users[found.value];

      if "password" !in body {
        return Failed(PlainError("Error", IllegalArgumentsMessage));
      }
      var isMatch := Compare(body["password"], user.password);
      if !isMatch {
        return Unauthorized(BadCredentialsMessage);
      }
      reply := LoggedIn(user, issue(found.value));
    }

    /** `getMe`: the stored profile of the authenticated requester. */
    method GetMe(requester: User) returns (reply: AuthReply)
      requires Valid()
      ensures reply == Profile(if requester.id in users then Some(users[requester.id]) else None)
      ensures reply.found.Some? ==> reply.found.value.id == requester.id
    {
      var found := if requester.id in users then Some(users[requester.id]) else None;
      reply := Profile(found);
    }

    /** `getAllUsers`: every user once, newest first. */
    method GetAllUsers() returns (reply: AuthReply)
      requires Valid()
      ensures reply.UserList?
      ensures SortedBy(reply.users, NewestFirst())
      ensures multiset(reply.users) == multiset(AllUsers(users, nextId))
      ensures forall id :: id in users ==> users[id] in reply.users
      ensures forall i :: 0 <= i < |reply.users| ==> reply.users[i] in users.Values
      ensures reply.count == |reply.users| == |users|
    {
      NewestFirstIsTotalPreorder();
      var all := AllUsers(users, nextId);
      var sorted := SortBy(all, NewestFirst());
      AllUsersCount(users, nextId);
      AllUsersListsEveryStored(users, nextId);
      IdsBelow(users, nextId);
      forall id | id in users ensures users[id] in sorted {
        assert users[id] in multiset(all);
      }
      forall i | 0 <= i < |sorted| ensures sorted[i] in users.Values {
        assert sorted[i] in multiset(all);
      }
      reply := UserList(|sorted|, sorted);
    }
  }

  /** After a successful registration, logging in with the same e-mail and
      password finds the new user and matches; another password matches
      exactly when bcrypt reads the same first 72 bytes from it. */
  lemma RegisteredUserCanLogIn(users: map<UserId, User>, bound: nat, body: Body, saved: User, salt: nat, other: string)
    requires "email" in body && "password" in body
    requires bound in users && users[bound] == saved
    requires saved.email == NormalizeEmail(body["email"])
    requires saved.password == Hashed(Hash(body["password"], salt))
    requires forall k :: k in users && k != bound ==> users[k].email != saved.email
    ensures UserWithEmail(users, body, bound + 1) == Some(bound)
    ensures Compare(body["password"], users[bound].password)
    ensures Compare(other, users[bound].password) <==> BcryptKey(other) == BcryptKey(body["password"])
  {
    HashedPasswordMatchesOnlyItself(body["password"], other, salt);
  }
}
