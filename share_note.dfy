/**
 * `/api/actions/share-note`: a signed-in user publishes a note; the new
 * shared note is owned by the session's user id, never by a body field.
 */
module ShareNote {
  import opened Wrappers
  import opened Api

  /** The JSON body; an absent field is `None`. */
  datatype ShareBody = ShareBody(content: Option<string>, botId: Option<string>, botName: Option<string>)

  predicate FieldsPresent(body: ShareBody)
  {
    Truthy(body.content) && Truthy(body.botId) && Truthy(body.botName)
  }

  const ShareMethodNotAllowed := Response(405, Message("Method Not Allowed"))
  const MustLogIn := Response(401, Message("You must be logged in to share."))
  const MissingDetails := Response(400, Message("Content and bot details are required."))
  const ShareFailed := Response(500, Message("Failed to create shareable link."))

  /**
   * What `handler` does. `newId` is the id the database assigns and
   * `createOk` whether `create` succeeded; an id already in use violates
   * the primary key, so the create fails.
   */
  function Respond(db: Db, verb: Method, session: Option<Session>, body: ShareBody, newId: nat, createOk: bool): (r: Outcome)
    ensures verb != Post ==> r == Outcome(db, ShareMethodNotAllowed)
    ensures verb == Post && session.None? ==> r == Outcome(db, MustLogIn)
    ensures verb == Post && session.Some? && !FieldsPresent(body) ==> r == Outcome(db, MissingDetails)
    ensures verb == Post && session.Some? && FieldsPresent(body) && (!createOk || NoteIdTaken(db, newId)) ==> r == Outcome(db, ShareFailed)
    ensures r.response.status == 200 <==>
      verb == Post && session.Some? && FieldsPresent(body) && createOk && !NoteIdTaken(db, newId)
    ensures r.response.status != 200 ==> r.db == db
    ensures r.response.status == 200 ==>
      && r.response == Response(200, NoteCreated(newId))
      && r.db.users == db.users
      && |r.db.sharedNotes| == |db.sharedNotes| + 1
      && r.db.sharedNotes[..|db.sharedNotes|] == db.sharedNotes
      && r.db.sharedNotes[|db.sharedNotes|].id == newId
      && r.db.sharedNotes[|db.sharedNotes|].userId == session.value.id
      && r.db.sharedNotes[|db.sharedNotes|].content == body.content.value
      && r.db.sharedNotes[|db.sharedNotes|].botId == body.botId.value
      && r.db.sharedNotes[|db.sharedNotes|].botName == body.botName.value
    ensures r.db.users == db.users
    ensures ValidDb(db) ==> ValidDb(r.db)
  {
    if verb != Post then Outcome(db, ShareMethodNotAllowed)
    else if session.None? then Outcome(db, MustLogIn)
    else if !FieldsPresent(body) then Outcome(db, MissingDetails)
    else if !createOk || NoteIdTaken(db, newId) then Outcome(db, ShareFailed)
    else
      var note := SharedNote(newId, body.content.value, body.botId.value, body.botName.value, session.value.id);
      Outcome(Db(db.users, db.sharedNotes + [note]), Response(200, NoteCreated(newId)))
  }

  /** `handler` over the user table. */
  method Handler(table: UserTable, verb: Method, session: Option<Session>, body: ShareBody, newId: nat, createOk: bool)
    returns (response: Response)
    modifies table
    ensures Outcome(table.State(), response) == Respond(old(table.State()), verb, session, body, newId, createOk)
  {
    if verb != Post {
      return ShareMethodNotAllowed;
    }
    if session.None? {
      return MustLogIn;
    }
    if !Truthy(body.content) || !Truthy(body.botId) || !Truthy(body.botName) {
      return MissingDetails;
    }
    if !createOk || NoteIdTaken(table.State(), newId) {
      return ShareFailed;
    }
    var newSharedNote := SharedNote(newId, body.content.value, body.botId.value, body.botName.value, session.value.id);
    table.sharedNotes := table.sharedNotes + [newSharedNote];
    response := Response(200, NoteCreated(newSharedNote.id));
  }
}
