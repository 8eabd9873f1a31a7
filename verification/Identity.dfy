// Users, tokens and sessions: the transactions of internal/metadata/sqlite_security.go and
// sqlite_repository.go, and the services of internal/auth that read outside them.
//
// Times are nanoseconds, 0 the zero time. `commits` says whether the statements and the commit of a
// transaction reach the disk; a transaction that does not commit is rolled back.

module Identity {
  import opened Text

  datatype Failing = InvalidRecord | Conflict | Storage | Forbidden | MtimeRequired | LastAdministrator
                   | InvalidCredentials | InvalidSession | InvalidCSRF | InvalidAccessToken | NoAdministrator

  datatype User = User(id: string, username: string, passwordHash: string, displayName: string, email: string,
                       access: string, enabled: bool, createdAt: int, updatedAt: int)

  datatype Token = Token(id: string, userID: string, caption: string, hash: string, createdAt: int, expiresAt: int,
                         revokedAt: int)

  datatype Session = Session(id: string, userID: string, hash: string, csrfHash: string, createdAt: int,
                             idleExpiresAt: int, absoluteExpiresAt: int, revokedAt: int)

  datatype Audit = Audit(actorUserID: string, actorRole: string, action: string, targetType: string, targetID: string,
                         outcome: string, timestamp: int)

  datatype DB = DB(users: map<string, User>, tokens: map<string, Token>, sessions: map<string, Session>,
                   audit: seq<Audit>)

  type Outcome = Result<Option<User>, Failing>

  predicate ValidUser(user: User) {
    && TrimSpace(user.id) != "" && user.username != "" && user.username == TrimSpace(user.username)
    && user.passwordHash != "" && (user.access == "user" || user.access == "admin")
  }

  predicate ValidAudit(audit: Audit) {
    audit.actorRole != "" && audit.action != "" && audit.targetType != "" && audit.targetID != "" && audit.outcome != ""
  }

  predicate ValidToken(token: Token) {
    token.id != "" && token.userID != "" && |token.hash| == 32 && token.expiresAt != 0
  }

  predicate ValidSession(session: Session) {
    && session.id != "" && session.userID != "" && |session.hash| == 32 && |session.csrfHash| == 32
    && session.idleExpiresAt != 0 && session.absoluteExpiresAt != 0
  }

  predicate Administers(user: User) { user.enabled && user.access == "admin" }

  function Admins(users: map<string, User>): set<string> { set id | id in users && Administers(users[id]) }

  predicate EnabledAdmin(users: map<string, User>, id: string) { id in users && Administers(users[id]) }

  predicate NameTaken(users: map<string, User>, id: string, username: string) {
    exists other | other in users :: other != id && users[other].username == username
  }

  predicate TokenHashTaken(db: DB, hash: string) { exists id | id in db.tokens :: db.tokens[id].hash == hash }

  predicate SessionHashTaken(db: DB, hash: string) { exists id | id in db.sessions :: db.sessions[id].hash == hash }

  function NextUpdatedAt(now: int, current: int): int { if now > current then now else current + 1 }

  function Stamped(audit: Audit, now: int): Audit { if audit.timestamp == 0 then audit.(timestamp := now) else audit }

  function Revoked(at: int, now: int): int { if at == 0 then now else at }

  function RevokedTokens(tokens: map<string, Token>, userID: string, now: int): map<string, Token> {
    map id | id in tokens :: if tokens[id].userID == userID
            then tokens[id].(revokedAt := Revoked(tokens[id].revokedAt, now)) else tokens[id]
  }

  function RevokedSessions(sessions: map<string, Session>, userID: string, now: int): map<string, Session> {
    map id | id in sessions ::
      if sessions[id].userID == userID
        then sessions[id].(revokedAt := Revoked(sessions[id].revokedAt, now)) else sessions[id]
  }

  function Invalidated(db: DB, userID: string, now: int): DB {
    db.(tokens := RevokedTokens(db.tokens, userID, now), sessions := RevokedSessions(db.sessions, userID, now))
  }

  function Audited(db: DB, audit: Audit, now: int): DB { db.(audit := db.audit + [Stamped(audit, now)]) }

  function Stored(db: DB, user: User): DB { db.(users := db.users[user.id := user]) }

  function Committed(db: DB, after: DB, user: User, commits: bool): (DB, Outcome) {
    if commits then (after, Success(Some(user))) else (db, Failure(Storage))
  }

  // ---------------------------------------------------------------- transactions on users

  function Bootstrapped(db: DB, user: User, audit: Audit, now: int, commits: bool): (DB, Outcome) {
    if !ValidUser(user) || !Administers(user) || !ValidAudit(audit) then (db, Failure(InvalidRecord))
    else if db.users != map[] then (db, Failure(Conflict))
    else
      var row := user.(createdAt := now, updatedAt := now);
      Committed(db, Audited(Stored(db, row), audit, now), row, commits)
  }

  function UserCreated(db: DB, user: User, audit: Audit, now: int, commits: bool): (DB, Outcome) {
    if !ValidUser(user) || !ValidAudit(audit) then (db, Failure(InvalidRecord))
    else if !EnabledAdmin(db.users, audit.actorUserID) then (db, Failure(Conflict))
    else if user.id in db.users || NameTaken(db.users, user.id, user.username) then (db, Failure(Storage))
    else
      var row := user.(createdAt := now, updatedAt := now);
      Committed(db, Audited(Stored(db, row), audit, now), row, commits)
  }

  predicate StepsDown(current: User, user: User) { Administers(current) && !Administers(user) }

  function UserUpdated(db: DB, user: User, expected: int, invalidate: bool, audit: Audit, now: int,
                       commits: bool): (DB, Outcome) {
    if !ValidUser(user) || !ValidAudit(audit) then (db, Failure(InvalidRecord))
    else if !EnabledAdmin(db.users, audit.actorUserID) then (db, Failure(Conflict))
    else if user.id !in db.users then (db, Success(None))
    else
      var current := db.users[user.id];
      if current.updatedAt != expected
        || (StepsDown(current, user) && |Admins(db.users)| <= 1) then (db, Failure(Conflict))
      else if NameTaken(db.users, user.id, user.username) then (db, Failure(Storage))
      else
        var at := NextUpdatedAt(now, current.updatedAt);
        var row := user.(createdAt := current.createdAt, updatedAt := at);
        var stored := Stored(db, row);
        Committed(db, Audited(if invalidate then Invalidated(stored, user.id, at) else stored, audit, at), row, commits)
  }

  predicate Recovers(audit: Audit) {
    audit.actorUserID == "" && audit.actorRole == "system" && audit.action == "user.password_recovered"
  }

  function PasswordChanged(db: DB, id: string, expected: int, hash: string, audit: Audit, now: int,
                           commits: bool): (DB, Outcome) {
    if hash == "" || (!Recovers(audit) && (audit.actorUserID != id || audit.actorRole != "user"))
      || !ValidAudit(audit) then
      (db, Failure(InvalidRecord))
    else if id !in db.users || (!Recovers(audit) && !db.users[id].enabled) then (db, Success(None))
    else if db.users[id].updatedAt != expected then (db, Failure(Conflict))
    else
      var at := NextUpdatedAt(now, db.users[id].updatedAt);
      var row := db.users[id].(passwordHash := hash, updatedAt := at);
      Committed(db, Audited(Invalidated(db.(users := db.users[id := row]), id, at), audit, at), row, commits)
  }

  // ---------------------------------------------------------------- transactions on tokens and sessions

  function TokenCreated(db: DB, token: Token, audit: Audit, now: int, commits: bool): (DB, Result<Token, Failing>) {
    if !ValidToken(token) || !ValidAudit(audit) || audit.actorUserID != token.userID then (db, Failure(InvalidRecord))
    else if token.userID !in db.users || !db.users[token.userID].enabled then (db, Failure(Conflict))
    else if token.id in db.tokens || TokenHashTaken(db, token.hash) || !commits then (db, Failure(Storage))
    else
      var created := if token.createdAt == 0 then now else token.createdAt;
      var row := token.(createdAt := created, revokedAt := 0);
      (Audited(db.(tokens := db.tokens[row.id := row]), audit, created), Success(row))
  }

  function SessionCreated(db: DB, session: Session, now: int, commits: bool): (DB, Result<Session, Failing>) {
    if !ValidSession(session) then (db, Failure(InvalidRecord))
    else if session.userID !in db.users || session.id in db.sessions || SessionHashTaken(db, session.hash)
      || !commits then
      (db, Failure(Storage))
    else
      var row := session.(createdAt := if session.createdAt == 0 then now else session.createdAt);
      (db.(sessions := db.sessions[row.id := row]), Success(row))
  }

  // RevokeDockerTokenWithAudit: a token of somebody else changes nothing and is no error.
  function OwnTokenRevoked(db: DB, userID: string, id: string, audit: Audit, at: int,
                           commits: bool): (DB, Result<(), Failing>) {
    if !ValidAudit(audit) then (db, Failure(InvalidRecord))
    else if id !in db.tokens || db.tokens[id].userID != userID then (db, Success(()))
    else if !commits then (db, Failure(Storage))
    else
      var token := db.tokens[id];
      (Audited(db.(tokens := db.tokens[id := token.(revokedAt := Revoked(token.revokedAt, at))]), audit, at),
       Success(()))
  }

  function TokenRevoked(db: DB, id: string, at: int): DB {
    if id !in db.tokens then db
    else db.(tokens := db.tokens[id := db.tokens[id].(revokedAt := Revoked(db.tokens[id].revokedAt, at))])
  }

  function SessionRevoked(db: DB, id: string, at: int): DB {
    if id !in db.sessions then db
    else db.(sessions := db.sessions[id := db.sessions[id].(revokedAt := Revoked(db.sessions[id].revokedAt, at))])
  }

  // ---------------------------------------------------------------- the transactions as they run

  class SQLiteRepository {
    var db: DB

    constructor ()
      ensures db == DB(map[], map[], map[], [])
    {
      db := DB(map[], map[], map[], []);
    }

    method InsertAuditEvent(audit: Audit, now: int)
      modifies this
      ensures db == Audited(old(db), audit, now)
    {
      var event := audit;
      if event.timestamp == 0 { event := event.(timestamp := now); }
      db := db.(audit := db.audit + [event]);
    }

    method BootstrapAdmin(user: User, audit: Audit, now: int, commits: bool) returns (r: Outcome)
      modifies this
      ensures (db, r) == Bootstrapped(old(db), user, audit, now, commits)
    {
      if !ValidUser(user) || user.access != "admin" || !user.enabled
        || !ValidAudit(audit) { return Failure(InvalidRecord); }
      var begun := db;
      if |db.users| != 0 { return Failure(Conflict); }
      var row := user.(createdAt := now, updatedAt := now);
      db := db.(users := db.users[row.id := row]);
      InsertAuditEvent(audit, now);
      if !commits {
        db := begun;
        return Failure(Storage);
      }
      r := Success(Some(row));
    }

    method CreateUserWithAudit(user: User, audit: Audit, now: int, commits: bool) returns (r: Outcome)
      modifies this
      ensures (db, r) == UserCreated(old(db), user, audit, now, commits)
    {
      if !ValidUser(user) || !ValidAudit(audit) { return Failure(InvalidRecord); }
      var begun := db;
      if !EnabledAdmin(db.users, audit.actorUserID) { return Failure(Conflict); }
      if user.id in db.users || NameTaken(db.users, user.id, user.username) { return Failure(Storage); }
      var row := user.(createdAt := now, updatedAt := now);
      db := db.(users := db.users[user.id := row]);
      InsertAuditEvent(audit, now);
      if !commits {
        db := begun;
        return Failure(Storage);
      }
      r := Success(Some(row));
    }

    method UpdateUserSecurity(user: User, expected: int, invalidate: bool, audit: Audit, now: int, commits: bool)
      returns (r: Outcome)
      modifies this
      ensures (db, r) == UserUpdated(old(db), user, expected, invalidate, audit, now, commits)
    {
      if !ValidUser(user) || !ValidAudit(audit) { return Failure(InvalidRecord); }
      var begun := db;
      if !EnabledAdmin(db.users, audit.actorUserID) { return Failure(Conflict); }
      if user.id !in db.users { return Success(None); }
      var current := db.users[user.id];
      if current.updatedAt != expected { return Failure(Conflict); }
      if current.enabled && current.access == "admin" && (!user.enabled || user.access != "admin") {
        if |Admins(db.users)| <= 1 { return Failure(Conflict); }
      }
      var at := NextUpdatedAt(now, current.updatedAt);
      if NameTaken(db.users, user.id, user.username) { return Failure(Storage); }
      var row := user.(createdAt := current.createdAt, updatedAt := at);
      db := db.(users := db.users[user.id := row]);
      if invalidate {
        db := db.(sessions := RevokedSessions(db.sessions, user.id, at));
        db := db.(tokens := RevokedTokens(db.tokens, user.id, at));
      }
      InsertAuditEvent(audit, at);
      if !commits {
        db := begun;
        return Failure(Storage);
      }
      r := Success(Some(row));
    }

    method ChangeUserPassword(id: string, expected: int, hash: string, audit: Audit, now: int, commits: bool)
      returns (r: Outcome)
      modifies this
      ensures (db, r) == PasswordChanged(old(db), id, expected, hash, audit, now, commits)
    {
      var systemRecovery := audit.actorUserID == "" && audit.actorRole == "system"
          && audit.action == "user.password_recovered";
      if hash == ""
        || (!systemRecovery
            && (audit.actorUserID != id || audit.actorRole != "user")) { return Failure(InvalidRecord); }
      if !ValidAudit(audit) { return Failure(InvalidRecord); }
      var begun := db;
      if id !in db.users || (!systemRecovery && !db.users[id].enabled) { return Success(None); }
      var user := db.users[id];
      if user.updatedAt != expected { return Failure(Conflict); }
      var at := NextUpdatedAt(now, user.updatedAt);
      var row := user.(passwordHash := hash, updatedAt := at);
      db := db.(users := db.users[id := row]);
      db := db.(sessions := RevokedSessions(db.sessions, id, at));
      db := db.(tokens := RevokedTokens(db.tokens, id, at));
      InsertAuditEvent(audit, at);
      if !commits {
        db := begun;
        return Failure(Storage);
      }
      r := Success(Some(row));
    }

    method CreateDockerTokenWithAudit(token: Token, audit: Audit, now: int, commits: bool)
      returns (r: Result<Token, Failing>)
      modifies this
      ensures (db, r) == TokenCreated(old(db), token, audit, now, commits)
    {
      if !ValidToken(token) || !ValidAudit(audit) { return Failure(InvalidRecord); }
      if audit.actorUserID != token.userID { return Failure(InvalidRecord); }
      var begun := db;
      if token.userID !in db.users || !db.users[token.userID].enabled { return Failure(Conflict); }
      var row := token.(revokedAt := 0);
      if token.createdAt == 0 { row := row.(createdAt := now); }
      if row.id in db.tokens || TokenHashTaken(db, row.hash) { return Failure(Storage); }
      db := db.(tokens := db.tokens[row.id := row]);
      InsertAuditEvent(audit, row.createdAt);
      if !commits {
        db := begun;
        return Failure(Storage);
      }
      r := Success(row);
    }

    method ListUsers() returns (rows: seq<User>)
      requires forall id :: id in db.users ==> db.users[id].id == id
      ensures Lists(rows, db.users)
    {
      rows := [];
      var left := db.users.Keys;
      while left != {}
        invariant left <= db.users.Keys
        invariant forall row :: row in rows <==> row.id in db.users && row.id !in left && row == db.users[row.id]
        invariant forall i, j :: 0 <= i < j < |rows| ==> rows[i].id != rows[j].id
        decreases |left|
      {
        var id :| id in left;
        assert forall i :: 0 <= i < |rows| ==> rows[i] in rows;
        left := left - {id};
        rows := rows + [db.users[id]];
      }
    }
  }

  // Every user's row, once.
  ghost predicate Lists(rows: seq<User>, users: map<string, User>) {
    && (forall row :: row in rows <==> row.id in users && row == users[row.id])
    && (forall i, j :: 0 <= i < j < |rows| ==> rows[i].id != rows[j].id)
  }
}
