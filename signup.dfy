/**
 * `/api/auth/signup`: required fields, a conflict for a known email, then
 * one new user whose password is stored only as its bcrypt digest.
 */
module Signup {
  import opened Wrappers
  import opened Api

  datatype SignupBody = SignupBody(name: Option<string>, email: Option<string>, password: Option<string>)

  predicate FieldsPresent(body: SignupBody)
  {
    Truthy(body.name) && Truthy(body.email) && Truthy(body.password)
  }

  const CreateFailed := Response(500, Message("Something went wrong"))

  /**
   * What `handler` does to the database and answers. `newId` is the id the
   * database assigns, `salt` bcrypt's random salt, and `createOk` whether
   * `prisma.user.create` succeeded; an id already in use violates the
   * primary key, so the create fails.
   */
  function Respond(db: Db, verb: Method, body: SignupBody, newId: nat, salt: nat, createOk: bool): (r: Outcome)
    ensures verb != Post ==> r == Outcome(db, MethodNotAllowed)
    ensures verb == Post && !FieldsPresent(body) ==> r == Outcome(db, Response(400, Message("Missing required fields")))
    ensures verb == Post && FieldsPresent(body) && body.email.value in db.users ==>
      r == Outcome(db, Response(409, Message("User already exists")))
    ensures verb == Post && FieldsPresent(body) && body.email.value !in db.users && (!createOk || UserIdTaken(db, newId)) ==>
      r == Outcome(db, CreateFailed)
    ensures r.response.status == 201 <==>
      verb == Post && FieldsPresent(body) && body.email.value !in db.users && createOk && !UserIdTaken(db, newId)
    ensures r.response.status != 201 ==> r.db == db
    ensures r.response.status == 201 ==>
      var email := body.email.value;
      && email in r.db.users
      && r.db.users == db.users[email := r.db.users[email]]
      && |r.db.users| == |db.users| + 1
      && r.db.sharedNotes == db.sharedNotes
      && r.db.users[email].id == newId
      && r.db.users[email].name == body.name.value
      && r.db.users[email].email == email
      && r.db.users[email].password.Some?
      && (forall p :: Compare(p, r.db.users[email].password.value) <==> p == body.password.value)
      && r.db.users[email].resetToken.None? && r.db.users[email].resetExpires.None?
      && r.response.body == MessageAndUser("User created successfully", r.db.users[email])
    ensures ValidDb(db) ==> ValidDb(r.db)
  {
    if verb != Post then Outcome(db, MethodNotAllowed)
    else if !FieldsPresent(body) then Outcome(db, Response(400, Message("Missing required fields")))
    else if body.email.value in db.users then Outcome(db, Response(409, Message("User already exists")))
    else if !createOk || UserIdTaken(db, newId) then Outcome(db, CreateFailed)
    else
      var email := body.email.value;
      var user := User(newId, body.name.value, email, Some(Hash(body.password.value, salt)), None, None);
      Outcome(Db(db.users[email := user], db.sharedNotes), Response(201, MessageAndUser("User created successfully", user)))
  }

  /** Once an email has signed up, signing up with it again is a conflict that changes nothing. */
  lemma SecondSignupConflicts(db: Db, body: SignupBody, newId: nat, salt: nat, again: SignupBody, newId2: nat, salt2: nat, createOk2: bool)
    requires Respond(db, Post, body, newId, salt, true).response.status == 201
    requires FieldsPresent(again) && again.email == body.email
    ensures var after := Respond(db, Post, body, newId, salt, true).db;
      Respond(after, Post, again, newId2, salt2, createOk2) == Outcome(after, Response(409, Message("User already exists")))
  {
  }

  /** `handler` over the user table. */
  method Handler(table: UserTable, verb: Method, body: SignupBody, newId: nat, salt: nat, createOk: bool)
    returns (response: Response)
    modifies table
    ensures Outcome(table.State(), response) == Respond(old(table.State()), verb, body, newId, salt, createOk)
  {
    if verb != Post {
      return MethodNotAllowed;
    }
    if !Truthy(body.name) || !Truthy(body.email) || !Truthy(body.password) {
      return Response(400, Message("Missing required fields"));
    }
    var email := body.email.value;
    if email in table.users {
      return Response(409, Message("User already exists"));
    }
    var hashedPassword := Hash(body.password.value, salt);
    if !createOk || UserIdTaken(table.State(), newId) {
      return CreateFailed;
    }
    var user := User(newId, body.name.value, email, Some(hashedPassword), None, None);
    table.users := table.users[email := user];
    response := Response(201, MessageAndUser("User created successfully", user));
  }
}
