/**
 * `/api/auth/reset-password`: find the user holding the SHA-256 of the
 * submitted token with an expiry still in the future, set the new
 * password and clear the token pair, so that each link works once.
 */
module ResetPassword {
  import opened Wrappers
  import opened Api
  import ForgotPassword

  const InvalidToken := Response(400, Message("Password reset token is invalid or has expired."))
  const ResetDone := Response(200, Message("Password has been reset successfully."))

  /** The `findFirst` filter: the row holds `digest` and its expiry is strictly after `now`. */
  predicate ResetMatch(u: User, digest: Digest, now: int)
  {
    u.resetToken == Some(digest) && u.resetExpires.Some? && u.resetExpires.value > now
  }

  /** Some user matches the filter. */
  predicate HasMatch(db: Db, digest: Digest, now: int)
  {
    exists e :: e in db.users && ResetMatch(db.users[e], digest, now)
  }

  /** `prisma.user.findFirst(...)`: the email of the one matching user, if there is one. */
  function FindResetUser(db: Db, digest: Digest, now: int): (r: Option<string>)
    requires ValidDb(db)
    ensures r.None? <==> !HasMatch(db, digest, now)
    ensures r.Some? ==> r.value in db.users && ResetMatch(db.users[r.value], digest, now)
  {
    if HasMatch(db, digest, now) then
      var e :| e in db.users && ResetMatch(db.users[e], digest, now);
      Some(e)
    else None
  }

  /**
   * What `handler` does. `now` is `new Date()`, `salt` bcrypt's random
   * salt. The token is looked up by its digest: only a matching, unexpired
   * row is changed, getting the new password's digest and no token pair.
   */
  function Respond(db: Db, verb: Method, token: Option<string>, password: Option<string>, now: int, salt: nat): (r: Outcome)
    requires ValidDb(db)
    ensures verb != Post ==> r == Outcome(db, MethodNotAllowed)
    ensures verb == Post && !(Truthy(token) && Truthy(password)) ==>
      r == Outcome(db, Response(400, Message("Token and password are required")))
    ensures verb == Post && Truthy(token) && Truthy(password) && !HasMatch(db, HashToken(token.value), now) ==>
      r == Outcome(db, InvalidToken)
    ensures r.response.status == 200 <==>
      verb == Post && Truthy(token) && Truthy(password) && HasMatch(db, HashToken(token.value), now)
    ensures r.response.status != 200 ==> r.db == db
    ensures r.response.status == 200 ==>
      var e := FindResetUser(db, HashToken(token.value), now).value;
      && r.response == ResetDone
      && r.db.users == db.users[e := db.users[e].(password := Some(Hash(password.value, salt)), resetToken := None, resetExpires := None)]
      && r.db.sharedNotes == db.sharedNotes
    ensures ValidDb(r.db)
  {
    if verb != Post then Outcome(db, MethodNotAllowed)
    else if !Truthy(token) || !Truthy(password) then Outcome(db, Response(400, Message("Token and password are required")))
    else
      match FindResetUser(db, HashToken(token.value), now)
      case None => Outcome(db, InvalidToken)
      case Some(e) =>
        var user := db.users[e];
        var updated := user.(password := Some(Hash(password.value, salt)), resetToken := None, resetExpires := None);
        Outcome(Db(db.users[e := updated], db.sharedNotes), ResetDone)
  }

  /** A link works once: after a successful reset the same token is rejected, at any time, with any password. */
  lemma TokenSingleUse(db: Db, token: string, password: string, now: int, salt: nat,
                       password2: string, later: int, salt2: nat)
    requires ValidDb(db)
    requires Respond(db, Post, Some(token), Some(password), now, salt).response.status == 200
    ensures var after := Respond(db, Post, Some(token), Some(password), now, salt).db;
      Respond(after, Post, Some(token), Some(password2), later, salt2).response.status == 400
  {
  }

  /**
   * The forgot-password link works: a reset with the mailed token before
   * the hour is up succeeds and leaves a password that compares equal to
   * the new one, and clears the token pair.
   */
  lemma LinkValidWithinHour(db: Db, email: string, raw: string, issued: int, password: string, later: int, salt: nat)
    requires ValidDb(db) && email in db.users && email != "" && raw != "" && password != ""
    requires ForgotPassword.FreshToken(db, raw)
    requires later < issued + ForgotPassword.ResetWindow
    ensures var mid := ForgotPassword.Respond(db, Post, Some(email), raw, issued, true);
      var r := Respond(mid.db, Post, Some(raw), Some(password), later, salt);
      && mid.mailed == Some(ForgotPassword.ResetMail(email, raw))
      && r.response == ResetDone
      && email in r.db.users
      && Compare(password, r.db.users[email].password.value)
      && r.db.users[email].resetToken.None? && r.db.users[email].resetExpires.None?
  {
    var mid := ForgotPassword.Respond(db, Post, Some(email), raw, issued, true);
    assert ResetMatch(mid.db.users[email], HashToken(raw), later);
    var e := FindResetUser(mid.db, HashToken(raw), later).value;
    assert e == email;
  }

  /** An expired link is refused and changes nothing. */
  lemma LinkExpiresAfterHour(db: Db, email: string, raw: string, issued: int, password: string, later: int, salt: nat)
    requires ValidDb(db) && email in db.users && email != "" && raw != "" && password != ""
    requires ForgotPassword.FreshToken(db, raw)
    requires later >= issued + ForgotPassword.ResetWindow
    ensures var mid := ForgotPassword.Respond(db, Post, Some(email), raw, issued, true);
      Respond(mid.db, Post, Some(raw), Some(password), later, salt) == Outcome(mid.db, InvalidToken)
  {
  }

  /** `handler` over the user table. */
  method Handler(table: UserTable, verb: Method, token: Option<string>, password: Option<string>, now: int, salt: nat)
    returns (response: Response)
    requires ValidDb(table.State())
    modifies table
    ensures Outcome(table.State(), response) == Respond(old(table.State()), verb, token, password, now, salt)
  {
    if verb != Post {
      return MethodNotAllowed;
    }
    if !Truthy(token) || !Truthy(password) {
      return Response(400, Message("Token and password are required"));
    }
    var hashedToken := HashToken(token.value);
    var found := FindResetUser(table.State(), hashedToken, now);
    if found.None? {
      return InvalidToken;
    }
    var hashedPassword := Hash(password.value, salt);
    var user := table.users[found.value];
    table.users := table.users[found.value := user.(password := Some(hashedPassword), resetToken := None, resetExpires := None)];
    response := ResetDone;
  }
}
