/**
 * The vocabulary shared by the API routes: request methods, body fields,
 * JSON responses, the session decoded from the JWT, the digests produced
 * by bcrypt and SHA-256, and the database's user and shared-note tables.
 */
module Api {
  import opened Wrappers

  datatype Method = Get | Post | Put | Patch | Delete

  /** A string field of the request body is truthy: present and not empty. */
  predicate Truthy(v: Option<string>)
  {
    v.Some? && v.value != ""
  }

  /**
   * Digests, kept symbolic: `Bcrypt(p, salt)` is `hash(p, 12)` with the
   * random salt it drew, `Sha256(s)` is the hex SHA-256 of `s`. Distinct
   * inputs give distinct digests, and no digest equals its input.
   */
  datatype Digest = Bcrypt(plain: string, salt: nat) | Sha256(input: string)

  /** bcrypt's `compare(plain, digest)`: the digest was made from `plain`, whatever its salt. */
  predicate Compare(plain: string, d: Digest)
    ensures Compare(plain, d) ==> d.Bcrypt? && d == Bcrypt(plain, d.salt)
  {
    d.Bcrypt? && d.plain == plain
  }

  /** bcrypt's `hash(password, 12)` with the salt it draws; it compares equal to its input and only to it. */
  function Hash(password: string, salt: nat): (d: Digest)
    ensures Compare(password, d)
    ensures forall other :: Compare(other, d) ==> other == password
  {
    Bcrypt(password, salt)
  }

  /** `createHash('sha256').update(s).digest('hex')`: deterministic, and never a password digest. */
  function HashToken(s: string): (d: Digest)
    ensures forall p :: !Compare(p, d)
  {
    Sha256(s)
  }

  /** A row of the `User` table; `email` is unique, `id` is the primary key. */
  datatype User = User(
    id: nat,
    name: string,
    email: string,
    password: Option<Digest>,
    resetToken: Option<Digest>,
    resetExpires: Option<int>)

  /** A row of the `SharedNote` table. */
  datatype SharedNote = SharedNote(id: nat, content: string, botId: string, botName: string, userId: nat)

  /** The database: users by their (unique) email, and the shared notes in creation order. */
  datatype Db = Db(users: map<string, User>, sharedNotes: seq<SharedNote>)

  /** What `getToken` decodes from the session cookie: the signed-in user's id and email. */
  datatype Session = Session(id: nat, email: string)

  /** The JSON body of a response. */
  datatype Body = Message(text: string) | MessageAndUser(text: string, user: User) | NoteCreated(noteId: nat)

  datatype Response = Response(status: nat, body: Body)

  /** The database after a request, and the response sent. */
  datatype Outcome = Outcome(db: Db, response: Response)

  const MethodNotAllowed := Response(405, Message("Method not allowed"))
  const NotAuthenticated := Response(401, Message("Not authenticated"))
  const SomethingWentWrong := Response(500, Message("Something went wrong."))

  predicate UserIdTaken(db: Db, id: nat)
  {
    exists e :: e in db.users && db.users[e].id == id
  }

  predicate NoteIdTaken(db: Db, id: nat)
  {
    exists k :: 0 <= k < |db.sharedNotes| && db.sharedNotes[k].id == id
  }

  /**
   * The database's constraints: each user is filed under its own email,
   * ids are unique, note ids are unique, and no two users hold the same
   * reset-token digest (which makes the reset lookup's `findFirst` pick
   * the one matching row).
   */
  predicate ValidDb(db: Db)
  {
    && (forall e :: e in db.users ==> db.users[e].email == e)
    && (forall e1, e2 :: e1 in db.users && e2 in db.users && db.users[e1].id == db.users[e2].id ==> e1 == e2)
    && (forall e1, e2 | e1 in db.users && e2 in db.users ::
          db.users[e1].resetToken.Some? && db.users[e1].resetToken == db.users[e2].resetToken ==> e1 == e2)
    && (forall i, j :: 0 <= i < j < |db.sharedNotes| ==> db.sharedNotes[i].id != db.sharedNotes[j].id)
  }

  /** Rewriting a row's name or password keeps every constraint: its key, id and token stay. */
  lemma RowUpdateKeepsValid(db: Db, e: string, u: User)
    requires e in db.users
    requires u.email == db.users[e].email && u.id == db.users[e].id && u.resetToken == db.users[e].resetToken
    ensures ValidDb(db) ==> ValidDb(Db(db.users[e := u], db.sharedNotes))
  {
  }

  /** The user table as the handlers see it through Prisma. */
  class UserTable {
    var users: map<string, User>
    var sharedNotes: seq<SharedNote>

    /** The tables as a value. */
    function State(): Db
      reads this
    {
      Db(users, sharedNotes)
    }

    /** An empty database. */
    constructor ()
      ensures State() == Db(map[], []) && ValidDb(State())
    {
      users := map[];
      sharedNotes := [];
    }
  }
}
