/**
 * `/api/user/delete-account`: the signed-in user's row, found by the
 * session's email, is removed; the session itself stays valid, so later
 * account requests with it find no row.
 */
module DeleteAccount {
  import opened Wrappers
  import opened Api
  import ChangePassword
  import UpdateName
  import Text

  const AccountDeleted := Response(200, Message("Account deleted successfully"))

  /**
   * What `handler` does. The session is checked before the method, which
   * must be DELETE. Prisma's `delete` on an email with no row throws, which,
   * like a failed delete (`deleteOk`), gives 500.
   */
  function Respond(db: Db, verb: Method, session: Option<Session>, deleteOk: bool): (r: Outcome)
    ensures session.None? ==> r == Outcome(db, NotAuthenticated)
    ensures session.Some? && verb != Delete ==> r == Outcome(db, MethodNotAllowed)
    ensures session.Some? && verb == Delete && (session.value.email !in db.users || !deleteOk) ==> r == Outcome(db, SomethingWentWrong)
    ensures r.response.status == 200 <==> session.Some? && verb == Delete && session.value.email in db.users && deleteOk
    ensures r.response.status != 200 ==> r.db == db
    ensures r.response.status == 200 ==>
      var e := session.value.email;
      && r.response == AccountDeleted
      && e !in r.db.users
      && |r.db.users| == |db.users| - 1
      && (forall other :: other in db.users && other != e ==> other in r.db.users && r.db.users[other] == db.users[other])
      && (forall other :: other in r.db.users ==> other in db.users)
      && r.db.sharedNotes == db.sharedNotes
    ensures ValidDb(db) ==> ValidDb(r.db)
  {
    if session.None? then Outcome(db, NotAuthenticated)
    else if verb != Delete then Outcome(db, MethodNotAllowed)
    else
      var e := session.value.email;
      if e !in db.users || !deleteOk then Outcome(db, SomethingWentWrong)
      else Outcome(Db(db.users - {e}, db.sharedNotes), AccountDeleted)
  }

  /**
   * A session that outlives its account: after the deletion, changing the
   * password gives 404, renaming and deleting again give 500, and none of
   * them changes anything.
   */
  lemma DeletedAccountStaysGone(db: Db, session: Session, current: Option<string>, next: Option<string>, salt: nat,
                                name: string, ok1: bool, ok2: bool, ok3: bool)
    requires Respond(db, Delete, Some(session), true).response.status == 200
    requires !Text.Blank(name)
    ensures var after := Respond(db, Delete, Some(session), true).db;
      && ChangePassword.Respond(after, Post, Some(session), current, next, salt, ok1) == Outcome(after, ChangePassword.NoPasswordUser)
      && UpdateName.Respond(after, Post, Some(session), Some(name), ok2) == Outcome(after, SomethingWentWrong)
      && Respond(after, Delete, Some(session), ok3) == Outcome(after, SomethingWentWrong)
  {
  }

  /** `handler` over the user table. */
  method Handler(table: UserTable, verb: Method, session: Option<Session>, deleteOk: bool)
    returns (response: Response)
    modifies table
    ensures Outcome(table.State(), response) == Respond(old(table.State()), verb, session, deleteOk)
  {
    if session.None? {
      return NotAuthenticated;
    }
    if verb != Delete {
      return MethodNotAllowed;
    }
    var email := session.value.email;
    if email !in table.users || !deleteOk {
      return SomethingWentWrong;
    }
    table.users := table.users - {email};
    response := AccountDeleted;
  }
}
