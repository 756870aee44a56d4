/**
 * `/api/auth/forgot-password`: for a known email, store the SHA-256 of a
 * fresh random token with a one-hour expiry and mail the raw token; answer
 * every request that names an email with the same message.
 */
module ForgotPassword {
  import opened Wrappers
  import opened Api

  /** The one answer to every request that names an email. */
  const GenericReply := Response(200, Message("If an account with this email exists, a password reset link has been sent."))

  /** How long a reset link stays valid, in milliseconds. */
  const ResetWindow := 3600000

  /** The reset e-mail: its recipient and the raw token in the link `/reset-password/<token>`. */
  datatype ResetMail = ResetMail(to: string, token: string)

  /** The database after the request, the response, and the e-mail handed to the mail service, if any. */
  datatype ForgotResult = ForgotResult(db: Db, response: Response, mailed: Option<ResetMail>)

  /** No user holds the digest of `raw` yet: the 32 random bytes did not repeat a pending token. */
  predicate FreshToken(db: Db, raw: string)
  {
    forall e :: e in db.users ==> db.users[e].resetToken != Some(HashToken(raw))
  }

  /**
   * What `handler` does. `raw` is the hex of `randomBytes(32)`, `now` is
   * `Date.now()`, and `storeOk` whether the lookup and the update
   * succeeded; any failure inside the `try` is answered like success.
   */
  function Respond(db: Db, verb: Method, email: Option<string>, raw: string, now: int, storeOk: bool): (r: ForgotResult)
    ensures verb != Post ==> r == ForgotResult(db, MethodNotAllowed, None)
    ensures verb == Post && !Truthy(email) ==> r == ForgotResult(db, Response(400, Message("Email is required")), None)
    ensures verb == Post && Truthy(email) ==> r.response == GenericReply
    ensures verb == Post && Truthy(email) && (email.value !in db.users || !storeOk) ==> r.db == db && r.mailed.None?
    ensures verb == Post && Truthy(email) && email.value in db.users && storeOk ==> r.mailed.Some?
    ensures r.db != db || r.mailed.Some? ==>
      var e := email.value;
      && verb == Post && Truthy(email) && e in db.users && storeOk
      && r.db.users == db.users[e := db.users[e].(resetToken := Some(HashToken(raw)), resetExpires := Some(now + ResetWindow))]
      && r.db.sharedNotes == db.sharedNotes
      && r.mailed == Some(ResetMail(db.users[e].email, raw))
    ensures ValidDb(db) && FreshToken(db, raw) ==> ValidDb(r.db)
  {
    if verb != Post then ForgotResult(db, MethodNotAllowed, None)
    else if !Truthy(email) then ForgotResult(db, Response(400, Message("Email is required")), None)
    else if email.value !in db.users || !storeOk then ForgotResult(db, GenericReply, None)
    else
      var e := email.value;
      var user := db.users[e];
      var updated := user.(resetToken := Some(HashToken(raw)), resetExpires := Some(now + ResetWindow));
      ForgotResult(Db(db.users[e := updated], db.sharedNotes), GenericReply, Some(ResetMail(user.email, raw)))
  }

  /** Only the requested user's row changes; every other user keeps every field. */
  lemma OnlyRequestedUserChanges(db: Db, email: Option<string>, raw: string, now: int, storeOk: bool, other: string)
    requires other in db.users && (email.None? || other != email.value)
    ensures var r := Respond(db, Post, email, raw, now, storeOk);
      other in r.db.users && r.db.users[other] == db.users[other]
  {
  }

  /**
   * The response reveals nothing about the database: any two requests that
   * name an email get the same answer, whether or not the accounts exist.
   */
  lemma ResponseUniform(db1: Db, db2: Db, e1: string, e2: string, raw1: string, raw2: string,
                        now1: int, now2: int, ok1: bool, ok2: bool)
    requires e1 != "" && e2 != ""
    ensures Respond(db1, Post, Some(e1), raw1, now1, ok1).response == Respond(db2, Post, Some(e2), raw2, now2, ok2).response
  {
  }

  /** `handler` over the user table; returns the response and the e-mail handed to the mail service. */
  method Handler(table: UserTable, verb: Method, email: Option<string>, raw: string, now: int, storeOk: bool)
    returns (response: Response, mailed: Option<ResetMail>)
    modifies table
    ensures ForgotResult(table.State(), response, mailed) == Respond(old(table.State()), verb, email, raw, now, storeOk)
  {
    mailed := None;
    if verb != Post {
      return MethodNotAllowed, None;
    }
    if !Truthy(email) {
      return Response(400, Message("Email is required")), None;
    }
    if email.value !in table.users || !storeOk {
      return GenericReply, None;
    }
    var user := table.users[email.value];
    var passwordResetToken := HashToken(raw);
    var passwordResetExpires := now + ResetWindow;
    table.users := table.users[email.value := user.(resetToken := Some(passwordResetToken), resetExpires := Some(passwordResetExpires))];
    mailed := Some(ResetMail(user.email, raw));
    response := GenericReply;
  }
}
