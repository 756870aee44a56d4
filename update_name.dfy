/**
 * `/api/user/update-name`: the signed-in user's display name, trimmed,
 * stored on the row filed under the session's email.
 */
module UpdateName {
  import opened Wrappers
  import opened Api
  import opened Text

  const EmptyName := Response(400, Message("Name cannot be empty"))

  /**
   * What `handler` does. The session is checked before the method. A
   * missing or blank name is refused; Prisma's `update` on an email with
   * no row throws, which, like a failed write (`updateOk`), gives 500.
   */
  function Respond(db: Db, verb: Method, session: Option<Session>, name: Option<string>, updateOk: bool): (r: Outcome)
    ensures session.None? ==> r == Outcome(db, NotAuthenticated)
    ensures session.Some? && verb != Post ==> r == Outcome(db, MethodNotAllowed)
    ensures session.Some? && verb == Post && (name.None? || Blank(name.value)) ==> r == Outcome(db, EmptyName)
    ensures session.Some? && verb == Post && name.Some? && !Blank(name.value) && (session.value.email !in db.users || !updateOk) ==>
      r == Outcome(db, SomethingWentWrong)
    ensures r.response.status == 200 <==>
      session.Some? && verb == Post && name.Some? && !Blank(name.value) && session.value.email in db.users && updateOk
    ensures r.response.status != 200 ==> r.db == db
    ensures r.response.status == 200 ==>
      var e := session.value.email;
      && r.db.users == db.users[e := db.users[e].(name := Trim(name.value))]
      && r.db.sharedNotes == db.sharedNotes
      && r.db.users[e].name != ""
      && r.response.body == MessageAndUser("Name updated successfully", r.db.users[e])
    ensures ValidDb(db) ==> ValidDb(r.db)
  {
    if session.None? then Outcome(db, NotAuthenticated)
    else if verb != Post then Outcome(db, MethodNotAllowed)
    else if name.None? || Trim(name.value) == "" then Outcome(db, EmptyName)
    else
      var e := session.value.email;
      if e !in db.users || !updateOk then Outcome(db, SomethingWentWrong)
      else
        var updated := db.users[e].(name := Trim(name.value));
        RowUpdateKeepsValid(db, e, updated);
        Outcome(Db(db.users[e := updated], db.sharedNotes), Response(200, MessageAndUser("Name updated successfully", updated)))
  }

  /** Renaming is idempotent: sending back the stored name changes nothing further. */
  lemma RenameIdempotent(db: Db, session: Session, name: string)
    requires Respond(db, Post, Some(session), Some(name), true).response.status == 200
    ensures var once := Respond(db, Post, Some(session), Some(name), true).db;
      var stored := once.users[session.email].name;
      Respond(once, Post, Some(session), Some(stored), true).db == once
  {
    var once := Respond(db, Post, Some(session), Some(name), true).db;
    TrimIdempotent(name);
    RenameToStoredName(once, session, Trim(name));
  }

  /** Renaming a row to the trimmed name it already holds leaves the table as it is. */
  lemma RenameToStoredName(db: Db, session: Session, stored: string)
    requires session.email in db.users && db.users[session.email].name == stored
    requires stored != [] && Trim(stored) == stored
    ensures Respond(db, Post, Some(session), Some(stored), true).db == db
  {
    assert db.users[session.email].(name := Trim(stored)) == db.users[session.email];
    assert db.users[session.email := db.users[session.email]] == db.users;
  }

  /** `handler` over the user table. */
  method Handler(table: UserTable, verb: Method, session: Option<Session>, name: Option<string>, updateOk: bool)
    returns (response: Response)
    modifies table
    ensures Outcome(table.State(), response) == Respond(old(table.State()), verb, session, name, updateOk)
  {
    if session.None? {
      return NotAuthenticated;
    }
    if verb != Post {
      return MethodNotAllowed;
    }
    if name.None? || Trim(name.value) == "" {
      return EmptyName;
    }
    var email := session.value.email;
    if email !in table.users || !updateOk {
      return SomethingWentWrong;
    }
    var updatedUser := table.users[email].(name := Trim(name.value));
    table.users := table.users[email := updatedUser];
    response := Response(200, MessageAndUser("Name updated successfully", updatedUser));
  }
}
