/**
 * `/api/user/change-password`: the signed-in user, found by the email in
 * the session token, proves the current password and gets the new one's
 * digest stored on their own row.
 */
module ChangePassword {
  import opened Wrappers
  import opened Api

  const NoPasswordUser := Response(404, Message("User not found or not using password auth."))
  const WrongPassword := Response(403, Message("Incorrect current password."))
  const PasswordChanged := Response(200, Message("Password changed successfully."))

  /** The session names a row that has a password: one `findUnique` finds and 404 does not stop. */
  predicate PasswordRow(db: Db, session: Option<Session>)
  {
    session.Some? && session.value.email in db.users && db.users[session.value.email].password.Some?
  }

  /**
   * What `handler` does. The method is checked before the session. The
   * row is the one filed under `session.email`; the body names no user.
   * An absent `currentPassword` or `newPassword` makes bcrypt throw, which
   * the `try` turns into 500, as it does a failed update (`updateOk`).
   */
  function Respond(db: Db, verb: Method, session: Option<Session>, currentPassword: Option<string>,
                   newPassword: Option<string>, salt: nat, updateOk: bool): (r: Outcome)
    ensures verb != Post ==> r == Outcome(db, MethodNotAllowed)
    ensures verb == Post && session.None? ==> r == Outcome(db, NotAuthenticated)
    ensures r.response == NoPasswordUser <==>
      verb == Post && session.Some? && (session.value.email !in db.users || db.users[session.value.email].password.None?)
    ensures r.response == NoPasswordUser ==> r.db == db
    ensures verb == Post && PasswordRow(db, session) && currentPassword.None? ==> r == Outcome(db, SomethingWentWrong)
    ensures verb == Post && PasswordRow(db, session) && currentPassword.Some? && (newPassword.None? || !updateOk)
              && Compare(currentPassword.value, db.users[session.value.email].password.value)
            ==> r == Outcome(db, SomethingWentWrong)
    ensures r.response == WrongPassword <==>
      && verb == Post && session.Some? && session.value.email in db.users
      && db.users[session.value.email].password.Some? && currentPassword.Some?
      && !Compare(currentPassword.value, db.users[session.value.email].password.value)
    ensures r.response.status == 200 <==>
      && verb == Post && session.Some? && session.value.email in db.users
      && db.users[session.value.email].password.Some? && currentPassword.Some?
      && Compare(currentPassword.value, db.users[session.value.email].password.value)
      && newPassword.Some? && updateOk
    ensures r.response.status != 200 ==> r.db == db
    ensures r.response.status == 200 ==>
      var e := session.value.email;
      && r.response == PasswordChanged
      && e in r.db.users
      && r.db.users == db.users[e := db.users[e].(password := r.db.users[e].password)]
      && r.db.sharedNotes == db.sharedNotes
      && r.db.users[e].password.Some?
      && (forall p :: Compare(p, r.db.users[e].password.value) <==> p == newPassword.value)
    ensures ValidDb(db) ==> ValidDb(r.db)
  {
    if verb != Post then Outcome(db, MethodNotAllowed)
    else if session.None? then Outcome(db, NotAuthenticated)
    else
      var e := session.value.email;
      if e !in db.users || db.users[e].password.None? then Outcome(db, NoPasswordUser)
      else if currentPassword.None? then Outcome(db, SomethingWentWrong)
      else if !Compare(currentPassword.value, db.users[e].password.value) then Outcome(db, WrongPassword)
      else if newPassword.None? || !updateOk then Outcome(db, SomethingWentWrong)
      else
        var updated := db.users[e].(password := Some(Hash(newPassword.value, salt)));
        Outcome(Db(db.users[e := updated], db.sharedNotes), PasswordChanged)
  }

  /**
   * After a change the new password is the only one that works: the old
   * one (if different) is refused with 403 and leaves the row as it is.
   */
  lemma OldPasswordRefused(db: Db, session: Session, current: string, next: string, salt: nat,
                           attempt: Option<string>, salt2: nat, ok2: bool)
    requires Respond(db, Post, Some(session), Some(current), Some(next), salt, true).response.status == 200
    requires current != next
    ensures var after := Respond(db, Post, Some(session), Some(current), Some(next), salt, true).db;
      Respond(after, Post, Some(session), Some(current), attempt, salt2, ok2) == Outcome(after, WrongPassword)
  {
  }

  /** `handler` over the user table. */
  method Handler(table: UserTable, verb: Method, session: Option<Session>, currentPassword: Option<string>,
                 newPassword: Option<string>, salt: nat, updateOk: bool)
    returns (response: Response)
    modifies table
    ensures Outcome(table.State(), response) == Respond(old(table.State()), verb, session, currentPassword, newPassword, salt, updateOk)
  {
    if verb != Post {
      return MethodNotAllowed;
    }
    if session.None? {
      return NotAuthenticated;
    }
    var email := session.value.email;
    if email !in table.users || table.users[email].password.None? {
      return NoPasswordUser;
    }
    var user := table.users[email];
    if currentPassword.None? {
      return SomethingWentWrong;
    }
    var isPasswordValid := Compare(currentPassword.value, user.password.value);
    if !isPasswordValid {
      return WrongPassword;
    }
    if newPassword.None? || !updateOk {
      return SomethingWentWrong;
    }
    var hashedNewPassword := Hash(newPassword.value, salt);
    table.users := table.users[email := user.(password := Some(hashedNewPassword))];
    response := PasswordChanged;
  }
}
