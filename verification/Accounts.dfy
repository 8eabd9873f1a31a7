// internal/auth/accounts.go: services that read outside the transaction they end in, freely interleaved.
//
// A Call is one service call between two of its queries; Advance makes its next query or commits.

module Accounts {
  import opened Text
  import opened Identity
  import opened Tokens

  // Passwords are hashed with a random salt outside the database; `verifies` checks the current one.
  datatype Call =
    | Edit(actor: string, target: string, edit: UserEdit, mtime: int)
    | EditRead(actor: string, target: string, edit: UserEdit, mtime: int)
    | Reset(actor: string, target: string, hash: string)
    | ResetRead(actor: string, target: string, hash: string)
    | Update(actor: string, user: User, expected: int, origin: Origin)
    | UpdateRead(actor: string, user: User, expected: int, origin: Origin)
    | UpdateCount(actor: string, user: User, expected: int, origin: Origin, current: User)
    | UpdateCommit(actor: string, user: User, expected: int, origin: Origin, current: User)
    | Create(actor: string, user: User)
    | CreateCommit(actor: string, user: User)
    | ChangePassword(target: string, verifies: string -> bool, hash: string)
    | ChangeCommit(verified: User, verifies: string -> bool, hash: string)
    | Recover(username: string, hash: string)
    | RecoverCommit(found: User, hash: string)
    | Finished(result: Outcome)

  // Where the record of an update comes from: its caller gave all of it, or an edit or a reset made it from `seen`.
  datatype Origin = Asked | FromEdit(seen: User, edit: UserEdit) | FromReset(seen: User, hash: string)

  datatype UserEdit = UserEdit(username: Option<string>, displayName: Option<string>, email: Option<string>,
                               access: Option<string>, enabled: Option<bool>)

  function Given<T>(given: Option<T>, otherwise: T): T { if given.Some? then given.value else otherwise }

  function Trimmed(given: Option<string>): Option<string> { if given.Some? then Some(TrimSpace(given.value)) else None }

  function Edited(user: User, edit: UserEdit): User {
    user.(username := Given(Trimmed(edit.username), user.username),
          displayName := Given(Trimmed(edit.displayName), user.displayName),
          email := Given(Trimmed(edit.email), user.email),
          access := Given(edit.access, user.access),
          enabled := Given(edit.enabled, user.enabled))
  }

  // What an update means to make of a row.
  function Applied(origin: Origin, row: User, asked: User): User {
    match origin
    case Asked => asked
    case FromEdit(_, edit) => Edited(row, edit)
    case FromReset(_, hash) => row.(passwordHash := hash)
  }

  // What makes earlier proofs of identity stale.
  predicate Invalidates(current: User, user: User) {
    || current.passwordHash != user.passwordHash || current.username != user.username
    || current.access != user.access || (current.enabled && !user.enabled)
  }

  function ActionOf(current: User, user: User): string {
    if current.enabled && !user.enabled then "user.disabled"
    else if current.access != user.access then "user.access_changed"
    else if current.passwordHash != user.passwordHash then "user.password_reset"
    else "user.updated"
  }

  function UserAudit(actor: string, role: string, action: string, target: string): Audit {
    Audit(actor, role, action, "user", target, "success", 0)
  }

  // The next query of a call, and where the call goes from its answer.
  ghost function Read(db: DB, call: Call): Call {
    match call
    case Edit(actor, target, edit, mtime) =>
      if !EnabledAdmin(db.users, actor) then Finished(Failure(Forbidden))
      else if mtime == 0 then Finished(Failure(MtimeRequired))
      else EditRead(actor, target, edit, mtime)
    case EditRead(actor, target, edit, mtime) =>
      if target !in db.users then Finished(Success(None))
      else Update(actor, Edited(db.users[target], edit), mtime, FromEdit(db.users[target], edit))
    case Reset(actor, target, hash) =>
      if EnabledAdmin(db.users, actor) then ResetRead(actor, target, hash) else Finished(Failure(Forbidden))
    case ResetRead(actor, target, hash) =>
      if target !in db.users then Finished(Success(None))
      else
        var row := db.users[target];
        Update(actor, row.(passwordHash := hash), row.updatedAt, FromReset(row, hash))
    case Update(actor, user, expected, origin) =>
      if EnabledAdmin(db.users, actor) then UpdateRead(actor, user, expected, origin) else Finished(Failure(Forbidden))
    case UpdateRead(actor, user, expected, origin) =>
      if user.id !in db.users then Finished(Success(None))
      else if StepsDown(db.users[user.id], user) then UpdateCount(actor, user, expected, origin, db.users[user.id])
      else UpdateCommit(actor, user, expected, origin, db.users[user.id])
    case UpdateCount(actor, user, expected, origin, current) =>
      if |Admins(db.users)| <= 1
        then Finished(Failure(LastAdministrator)) else UpdateCommit(actor, user, expected, origin, current)
    case Create(actor, user) =>
      if EnabledAdmin(db.users, actor) then CreateCommit(actor, user) else Finished(Failure(Forbidden))
    case ChangePassword(target, verifies, hash) =>
      if target !in db.users || !db.users[target].enabled || !verifies(db.users[target].passwordHash) then
        Finished(Failure(InvalidCredentials))
      else ChangeCommit(db.users[target], verifies, hash)
    case Recover(username, hash) =>
      var found := UserByName(db, username);
      if found.Some?
        && found.value.access == "admin" then RecoverCommit(found.value, hash) else Finished(Failure(NoAdministrator))
    case _ => call
  }

  predicate Commits(call: Call) {
    call.UpdateCommit? || call.CreateCommit? || call.ChangeCommit? || call.RecoverCommit?
  }

  // The transaction a call ends in.
  function Commit(db: DB, call: Call, now: int, commits: bool): (DB, Outcome)
    requires Commits(call)
  {
    match call
    case UpdateCommit(actor, user, expected, _, current) =>
      var audit := UserAudit(actor, "admin", ActionOf(current, user), user.id);
      UserUpdated(db, user, expected, Invalidates(current, user), audit, now, commits)
    case CreateCommit(actor, user) => UserCreated(db, user, UserAudit(actor, "admin", "user.created", user.id), now,
                                                  commits)
    case ChangeCommit(verified, _, hash) =>
      var audit := UserAudit(verified.id, "user", "user.password_changed", verified.id);
      Found(PasswordChanged(db, verified.id, verified.updatedAt, hash, audit, now, commits))
    case RecoverCommit(found, hash) =>
      var audit := UserAudit("", "system", "user.password_recovered", found.id);
      PasswordChanged(db, found.id, found.updatedAt, hash, audit, now, commits)
  }

  ghost function Advance(db: DB, call: Call, now: int, commits: bool): (DB, Call) {
    if Commits(call)
      then var (after, r) := Commit(db, call, now, commits); (after, Finished(r)) else (db, Read(db, call))
  }

  // A user who has gone answers as if the password were wrong.
  function Found(outcome: (DB, Outcome)): (DB, Outcome) {
    if outcome.1 == Success(None) then (outcome.0, Failure(InvalidCredentials)) else outcome
  }

  // ---------------------------------------------------------------- every step at once

  datatype System = System(db: DB, calls: map<nat, Call>, bearers: set<Claims>)

  datatype Action =
    | Begin(slot: nat, call: Call)
    | Continue(slot: nat, now: int, commits: bool)
    | Bootstrap(user: User, now: int, commits: bool)
    | IssueToken(id: string, userID: string, caption: string, lifetime: int, hash: string, now: int, commits: bool)
    | RevokeOwn(userID: string, id: string, now: int, commits: bool)
    | RevokeAny(id: string, now: int)
    | OpenSession(first: DB, username: string, verifies: string -> bool, id: string, hash: string, csrfHash: string,
                  idle: int, absolute: int, now: int, commits: bool)
    | CloseSession(id: string, now: int)
    | CloseSessions(userID: string, now: int)
    | IssueBearer(first: DB, second: DB, sha: Hashing, username: string, secret: string, repository: string,
                  actions: seq<string>, now: int)

  predicate Initial(call: Call) {
    call.Edit? || call.Reset? || call.Create? || call.ChangePassword? || call.Recover?
      || (call.Update? && call.origin == Asked)
  }

  // A login verified the password in `first`; the two queries of a bearer issue read `first` and `second`.
  // They may be any earlier databases.
  ghost predicate Enabled(sys: System, action: Action) {
    if action.Begin? then action.slot !in sys.calls && Initial(action.call)
    else
      && action.now > 0
      && (action.Continue? ==> action.slot in sys.calls)
      && (action.OpenSession? ==> Evolved(action.first, sys.db))
      && (action.IssueBearer? ==> Evolved(action.first, sys.db) && Evolved(action.second, sys.db))
  }

  ghost function Apply(sys: System, action: Action): System
    requires Enabled(sys, action)
  {
    match action
    case Begin(slot, call) => sys.(calls := sys.calls[slot := call])
    case Continue(slot, now, commits) =>
      var (db, call) := Advance(sys.db, sys.calls[slot], now, commits);
      sys.(db := db, calls := sys.calls[slot := call])
    case Bootstrap(user, now, commits) =>
      sys.(db := Bootstrapped(sys.db, user, UserAudit("", "system", "user.bootstrap", user.id), now, commits).0)
    case IssueToken(id, userID, caption, lifetime, hash, now, commits) =>
      var token := NewToken(id, userID, caption, lifetime, hash, now);
      if token == None then sys
      else sys.(db := TokenCreated(sys.db, token.value, OwnAudit(userID, "docker_token.created", id), now, commits).0)
    case RevokeOwn(userID, id, now, commits) =>
      sys.(db := OwnTokenRevoked(sys.db, userID, id, OwnAudit(userID, "docker_token.revoked", id), now, commits).0)
    case RevokeAny(id, now) => sys.(db := TokenRevoked(sys.db, id, now))
    case OpenSession(first, username, verifies, id, hash, csrfHash, idle, absolute, now, commits) =>
      var login := AuthenticateWeb(first, username, verifies);
      if login.Failure? then sys
      else sys.(db :=
                SessionCreated(sys.db, NewSession(id, login.value.id, hash, csrfHash, now, idle, absolute), now,
                               commits).0)
    case CloseSession(id, now) => sys.(db := SessionRevoked(sys.db, id, now))
    case CloseSessions(userID, now) => sys.(db := sys.db.(sessions := RevokedSessions(sys.db.sessions, userID, now)))
    case IssueBearer(first, second, sha, username, secret, repository, actions, now) =>
      var r := Issue(first, second, sha, username, secret, repository, actions, now);
      if r.Success? then sys.(bearers := sys.bearers + {r.value}) else sys
  }

  // ---------------------------------------------------------------- how the database ages

  predicate Aged(before: User, after: User) { after == before || before.updatedAt < after.updatedAt }

  predicate TokenAged(before: Token, after: Token) {
    after == before || (before.revokedAt == 0 != after.revokedAt && after == before.(revokedAt := after.revokedAt))
  }

  predicate SessionAged(before: Session, after: Session) {
    after == before || (before.revokedAt == 0 != after.revokedAt && after == before.(revokedAt := after.revokedAt))
  }

  ghost predicate UsersAged(before: map<string, User>, after: map<string, User>) {
    forall id :: id in before ==> id in after && Aged(before[id], after[id])
  }

  ghost predicate TokensAged(before: map<string, Token>, after: map<string, Token>) {
    forall id :: id in before ==> id in after && TokenAged(before[id], after[id])
  }

  ghost predicate SessionsAged(before: map<string, Session>, after: map<string, Session>) {
    forall id :: id in before ==> id in after && SessionAged(before[id], after[id])
  }

  // No row vanishes, a user that changes gets a later mtime, a revocation is never taken back, the audit log only
  // grows.
  ghost predicate Evolved(before: DB, after: DB) {
    && UsersAged(before.users, after.users) && TokensAged(before.tokens, after.tokens)
    && SessionsAged(before.sessions, after.sessions) && before.audit <= after.audit
  }

  lemma EvolvedTransitive(a: DB, b: DB, c: DB)
    requires Evolved(a, b) && Evolved(b, c)
    ensures Evolved(a, c)
  {}

  ghost predicate Governed(users: map<string, User>) { users == map[] || Admins(users) != {} }

  ghost predicate Proper(db: DB) { SoundDB(db) && Governed(db.users) }

  // ---------------------------------------------------------------- table by table

  lemma AdminsRemain(before: map<string, User>, after: map<string, User>, id: string)
    requires Admins(before) != {} && before.Keys <= after.Keys
    requires forall other :: other in before && other != id ==> after[other] == before[other]
    requires id in before ==> StepsDown(before[id], after[id]) ==> |Admins(before)| > 1
    ensures Admins(after) != {}
  {
    var other :| other in Admins(before);
    if other == id && !Administers(after[id]) {
      assert Admins(before) != {id};
      other :| other in Admins(before) && other != id;
    }
    assert other in Admins(after);
  }

  lemma NamesStayUnique(users: map<string, User>, row: User)
    requires SoundUsers(users) && ValidUser(row) && !NameTaken(users, row.id, row.username)
    ensures SoundUsers(users[row.id := row])
  {
    var after := users[row.id := row];
    forall a, b | SameName(after, a, b) ensures a == b {
      assert a != row.id && b != row.id ==> SameName(users, a, b);
    }
  }

  lemma StaysGoverned(users: map<string, User>, row: User)
    requires Governed(users)
    requires row.id in users ==> StepsDown(users[row.id], row) ==> |Admins(users)| > 1
    requires users == map[] ==> Administers(row)
    ensures Governed(users[row.id := row]) && users[row.id := row] != map[]
  {
    var after := users[row.id := row];
    assert row.id in after;
    if users == map[] {
      assert row.id in Admins(after);
    } else {
      AdminsRemain(users, after, row.id);
    }
  }

  lemma RowIsStored(users: map<string, User>, row: User)
    requires SoundUsers(users) && Governed(users) && ValidUser(row) && !NameTaken(users, row.id, row.username)
    requires row.id in users ==> Aged(users[row.id], row) && (StepsDown(users[row.id], row) ==> |Admins(users)| > 1)
    requires users == map[] ==> Administers(row)
    ensures var after := users[row.id := row];
            SoundUsers(after) && Governed(after) && UsersAged(users, after) && after != map[]
  {
    NamesStayUnique(users, row);
    StaysGoverned(users, row);
  }

  lemma TokensRevoked(tokens: map<string, Token>, users: map<string, User>, userID: string, at: int)
    requires SoundTokens(tokens, users) && at > 0
    ensures var after := RevokedTokens(tokens, userID, at);
            && SoundTokens(after, users) && TokensAged(tokens, after)
            && forall id :: id in after && after[id].userID == userID ==> after[id].revokedAt != 0
  {
    var after := RevokedTokens(tokens, userID, at);
    forall a, b | SameToken(after, a, b) ensures a == b {
      assert SameToken(tokens, a, b);
    }
  }

  lemma SessionsRevoked(sessions: map<string, Session>, users: map<string, User>, userID: string, at: int)
    requires SoundSessions(sessions, users) && at > 0
    ensures var after := RevokedSessions(sessions, userID, at);
            && SoundSessions(after, users) && SessionsAged(sessions, after)
            && forall id :: id in after && after[id].userID == userID ==> after[id].revokedAt != 0
  {
    var after := RevokedSessions(sessions, userID, at);
    forall a, b | SameSession(after, a, b) ensures a == b {
      assert SameSession(sessions, a, b);
    }
  }

  lemma TokenIsStored(tokens: map<string, Token>, users: map<string, User>, row: Token)
    requires SoundTokens(tokens, users) && row.userID in users
    requires if row.id in tokens then TokenAged(tokens[row.id], row) else forall id :: id in tokens ==>
               tokens[id].hash != row.hash
    ensures var after := tokens[row.id := row]; SoundTokens(after, users) && TokensAged(tokens, after)
  {
    var after := tokens[row.id := row];
    forall a, b | SameToken(after, a, b) ensures a == b {
      assert a != row.id && b != row.id ==> SameToken(tokens, a, b);
      assert row.id in tokens ==> SameToken(tokens, a, b);
    }
  }

  lemma SessionIsStored(sessions: map<string, Session>, users: map<string, User>, row: Session)
    requires SoundSessions(sessions, users) && row.userID in users
    requires if row.id in sessions then SessionAged(sessions[row.id], row) else forall id :: id in sessions ==>
            sessions[id].hash != row.hash
    ensures var after := sessions[row.id := row]; SoundSessions(after, users) && SessionsAged(sessions, after)
  {
    var after := sessions[row.id := row];
    forall a, b | SameSession(after, a, b) ensures a == b {
      assert a != row.id && b != row.id ==> SameSession(sessions, a, b);
      assert row.id in sessions ==> SameSession(sessions, a, b);
    }
  }

  lemma MoreUsersAreFine(db: DB, users: map<string, User>)
    requires SoundDB(db) && UsersAged(db.users, users)
    ensures SoundTokens(db.tokens, users) && SoundSessions(db.sessions, users)
  {}

  // ---------------------------------------------------------------- transaction by transaction

  predicate Succeeds(r: Outcome) { r.Success? && r.value.Some? }

  // What a transaction did: one row stored and one audit event added, or nothing.
  ghost predicate Landed(before: DB, after: DB, r: Outcome) {
    if Succeeds(r) then after.users == before.users[r.value.value.id := r.value.value]
      && |after.audit| == |before.audit| + 1
    else after == before
  }

  ghost predicate Preserves(before: DB, after: DB) { Proper(after) && Evolved(before, after) }

  ghost predicate Transacted(before: DB, after: DB, r: Outcome) {
    Landed(before, after, r) && (Succeeds(r) ==> Preserves(before, after))
  }

  // What replacing a row that had become stale did.
  ghost predicate ProofsRevoked(before: DB, after: DB, userID: string) {
    && (forall id :: id in before.tokens && before.tokens[id].userID == userID ==>
        id in after.tokens && after.tokens[id].revokedAt != 0)
    && (forall id :: id in before.sessions && before.sessions[id].userID == userID ==>
                     id in after.sessions && after.sessions[id].revokedAt != 0)
  }

  lemma AuditedIsKept(before: DB, db: DB, audit: Audit, now: int)
    requires Preserves(before, db)
    ensures Preserves(before, Audited(db, audit, now))
  {}

  lemma StoredIsKept(db: DB, row: User)
    requires Proper(db) && ValidUser(row) && !NameTaken(db.users, row.id, row.username)
    requires row.id in db.users ==>
               Aged(db.users[row.id], row) && (StepsDown(db.users[row.id], row) ==> |Admins(db.users)| > 1)
    requires db.users == map[] ==> Administers(row)
    ensures Preserves(db, Stored(db, row))
  {
    RowIsStored(db.users, row);
    MoreUsersAreFine(db, Stored(db, row).users);
  }

  lemma InsertTransacts(db: DB, row: User, audit: Audit, now: int)
    requires Proper(db) && row.id !in db.users && ValidUser(row) && !NameTaken(db.users, row.id, row.username)
    requires db.users == map[] ==> Administers(row)
    ensures Transacted(db, Audited(Stored(db, row), audit, now), Success(Some(row)))
  {
    StoredIsKept(db, row);
    AuditedIsKept(db, Stored(db, row), audit, now);
  }

  lemma BootstrapTransacts(db: DB, user: User, audit: Audit, now: int, commits: bool)
    requires Proper(db)
    ensures var (after, r) := Bootstrapped(db, user, audit, now, commits);
            Transacted(db, after, r) && (r.Success? ==> db.users == map[])
  {
    var r := Bootstrapped(db, user, audit, now, commits).1;
    if r.Success? {
      InsertTransacts(db, r.value.value, audit, now);
    }
  }

  lemma CreateTransacts(db: DB, user: User, audit: Audit, now: int, commits: bool)
    requires Proper(db)
    ensures var (after, r) := UserCreated(db, user, audit, now, commits);
            Transacted(db, after, r) && (Succeeds(r) ==> r.value.value.id !in db.users)
  {
    var r := UserCreated(db, user, audit, now, commits).1;
    if r.Success? {
      InsertTransacts(db, r.value.value, audit, now);
    }
  }

  lemma InvalidatedIsKept(before: DB, db: DB, userID: string, at: int, audit: Audit)
    requires Preserves(before, db) && before.tokens == db.tokens && before.sessions == db.sessions && at > 0
    ensures var after := Audited(Invalidated(db, userID, at), audit, at);
            Preserves(before, after) && ProofsRevoked(before, after, userID)
  {
    TokensRevoked(db.tokens, db.users, userID, at);
    SessionsRevoked(db.sessions, db.users, userID, at);
    AuditedIsKept(before, Invalidated(db, userID, at), audit, at);
  }

  lemma RevokingTransacts(db: DB, row: User, audit: Audit, at: int)
    requires Proper(db) && Preserves(db, Stored(db, row)) && at > 0
    ensures var after := Audited(Invalidated(Stored(db, row), row.id, at), audit, at);
            Transacted(db, after, Success(Some(row))) && ProofsRevoked(db, after, row.id)
  {
    InvalidatedIsKept(db, Stored(db, row), row.id, at, audit);
  }

  lemma StoringTransacts(db: DB, row: User, audit: Audit, at: int)
    requires Proper(db) && Preserves(db, Stored(db, row))
    ensures Transacted(db, Audited(Stored(db, row), audit, at), Success(Some(row)))
  {
    AuditedIsKept(db, Stored(db, row), audit, at);
  }

  lemma InvalidationTransacts(db: DB, row: User, invalidate: bool, audit: Audit, at: int)
    requires Proper(db) && at > 0 && row.id in db.users && Aged(db.users[row.id], row)
    requires ValidUser(row) && !NameTaken(db.users, row.id, row.username)
    requires StepsDown(db.users[row.id], row) ==> |Admins(db.users)| > 1
    ensures var stored := Stored(db, row);
            var after := Audited(if invalidate then Invalidated(stored, row.id, at) else stored, audit, at);
            Transacted(db, after, Success(Some(row))) && (invalidate ==> ProofsRevoked(db, after, row.id))
  {
    StoredIsKept(db, row);
    if invalidate {
      RevokingTransacts(db, row, audit, at);
    } else {
      StoringTransacts(db, row, audit, at);
    }
  }

  // What an update that stores a row did, and what one that also revokes did.
  ghost predicate Updated(db: DB, after: DB, r: Outcome, user: User, expected: int, invalidate: bool) {
    && Landed(db, after, r)
    && (Succeeds(r) ==>
          && user.id in db.users && db.users[user.id].updatedAt == expected < r.value.value.updatedAt
          && r.value.value == user.(createdAt := db.users[user.id].createdAt, updatedAt := r.value.value.updatedAt)
          && (if invalidate then ProofsRevoked(db, after, user.id)
              else after.tokens == db.tokens && after.sessions == db.sessions))
  }

  lemma UpdateTransacts(db: DB, user: User, expected: int, invalidate: bool, audit: Audit, now: int, commits: bool)
    requires Proper(db) && now > 0
    ensures var (after, r) := UserUpdated(db, user, expected, invalidate, audit, now, commits);
            Transacted(db, after, r) && Updated(db, after, r, user, expected, invalidate)
  {
    var r := UserUpdated(db, user, expected, invalidate, audit, now, commits).1;
    if Succeeds(r) {
      InvalidationTransacts(db, r.value.value, invalidate, audit, r.value.value.updatedAt);
    }
  }

  lemma OwnNameIsFree(users: map<string, User>, id: string)
    requires SoundUsers(users) && id in users
    ensures !NameTaken(users, id, users[id].username)
  {
    forall other | other in users && other != id ensures users[other].username != users[id].username {
      assert !SameName(users, other, id);
    }
  }

  // What a password change that succeeds did.
  ghost predicate Rekeyed(db: DB, after: DB, r: Outcome, id: string, expected: int, hash: string) {
    && Landed(db, after, r)
    && (Succeeds(r) ==>
          && id in db.users && db.users[id].updatedAt == expected < r.value.value.updatedAt
          && r.value.value == db.users[id].(passwordHash := hash, updatedAt := r.value.value.updatedAt)
          && r.value.value.id == id && ProofsRevoked(db, after, id))
  }

  lemma PasswordTransacts(db: DB, id: string, expected: int, hash: string, audit: Audit, now: int, commits: bool)
    requires Proper(db) && now > 0
    ensures var (after, r) := PasswordChanged(db, id, expected, hash, audit, now, commits);
            && Transacted(db, after, r) && Rekeyed(db, after, r, id, expected, hash)
            && (r == Success(None) && Recovers(audit) ==> id !in db.users)
  {
    var r := PasswordChanged(db, id, expected, hash, audit, now, commits).1;
    if Succeeds(r) {
      OwnNameIsFree(db.users, id);
      InvalidationTransacts(db, r.value.value, true, audit, r.value.value.updatedAt);
    }
  }

  lemma TokenTransacts(db: DB, token: Token, audit: Audit, now: int, commits: bool)
    requires Proper(db)
    ensures var (after, r) := TokenCreated(db, token, audit, now, commits);
            if r.Failure? then after == db
            else
              && Preserves(db, after) && after.tokens == db.tokens[token.id := r.value]
              && |after.audit| == |db.audit| + 1
  {
    var r := TokenCreated(db, token, audit, now, commits).1;
    if r.Success? {
      TokenIsStored(db.tokens, db.users, r.value);
    }
  }

  lemma SessionTransacts(db: DB, session: Session, now: int, commits: bool)
    requires Proper(db)
    ensures var (after, r) := SessionCreated(db, session, now, commits);
            if r.Failure? then after == db
            else Preserves(db, after) && after.sessions == db.sessions[session.id := r.value]
  {
    var r := SessionCreated(db, session, now, commits).1;
    if r.Success? {
      SessionIsStored(db.sessions, db.users, r.value);
    }
  }

  lemma RevocationTransacts(db: DB, id: string, now: int)
    requires Proper(db) && now > 0
    ensures Preserves(db, TokenRevoked(db, id, now)) && Preserves(db, SessionRevoked(db, id, now))
  {
    if id in db.tokens {
      TokenIsStored(db.tokens, db.users, TokenRevoked(db, id, now).tokens[id]);
    }
    if id in db.sessions {
      SessionIsStored(db.sessions, db.users, SessionRevoked(db, id, now).sessions[id]);
    }
  }

  lemma OwnRevocationTransacts(db: DB, userID: string, id: string, audit: Audit, now: int, commits: bool)
    requires Proper(db) && now > 0
    ensures var (after, r) := OwnTokenRevoked(db, userID, id, audit, now, commits);
            after == db || (r.Success? && Preserves(db, after))
  {
    RevocationTransacts(db, id, now);
    AuditedIsKept(db, TokenRevoked(db, id, now), audit, now);
    OwnRevocationIsRevocation(db, userID, id, audit, now, commits);
  }

  lemma OwnRevocationIsRevocation(db: DB, userID: string, id: string, audit: Audit, now: int, commits: bool)
    ensures var (after, r) := OwnTokenRevoked(db, userID, id, audit, now, commits);
            after == db || (r.Success? && after == Audited(TokenRevoked(db, id, now), audit, now))
  {}

  // ---------------------------------------------------------------- calls that read earlier

  // `row` was the user's row at some earlier time.
  predicate Seen(db: DB, row: User) { row.id in db.users && Aged(row, db.users[row.id]) }

  predicate MadeFrom(db: DB, user: User, expected: int, origin: Origin) {
    match origin
    case Asked => true
    case FromEdit(seen, _) => Seen(db, seen) && user == Applied(origin, seen, user)
    case FromReset(seen, _) => Seen(db, seen) && user == Applied(origin, seen, user) && expected == seen.updatedAt
  }

  predicate ReadAfter(db: DB, user: User, expected: int, origin: Origin, current: User) {
    && MadeFrom(db, user, expected, origin) && current.id == user.id && Seen(db, current)
    && (origin != Asked ==> Aged(origin.seen, current))
  }

  predicate CallSound(db: DB, call: Call) {
    match call
    case Update(_, user, expected, origin) => MadeFrom(db, user, expected, origin)
    case UpdateRead(_, user, expected, origin) => MadeFrom(db, user, expected, origin)
    case UpdateCount(_, user, expected, origin, current) => ReadAfter(db, user, expected, origin, current)
    case UpdateCommit(_, user, expected, origin, current) => ReadAfter(db, user, expected, origin, current)
    case ChangeCommit(verified, verifies, _) => Seen(db, verified) && verified.enabled
      && verifies(verified.passwordHash)
    case RecoverCommit(found, _) => Seen(db, found) && found.access == "admin"
    case _ => true
  }

  predicate NamesItsToken(db: DB, claims: Claims, id: string) {
    HasHash(db, claims.tokenHash, id) && db.tokens[id].userID == claims.userID
  }

  ghost predicate BearerSound(db: DB, claims: Claims) {
    claims.userID == "" || exists id :: NamesItsToken(db, claims, id)
  }

  ghost predicate Sound(sys: System) {
    && Proper(sys.db)
    && (forall slot :: slot in sys.calls ==> CallSound(sys.db, sys.calls[slot]))
    && (forall claims :: claims in sys.bearers ==> BearerSound(sys.db, claims))
  }

  lemma SeenStaysSeen(before: DB, after: DB, call: Call, claims: Claims)
    requires Evolved(before, after)
    ensures CallSound(before, call) ==> CallSound(after, call)
    ensures BearerSound(before, claims) ==> BearerSound(after, claims)
  {
    if id :| NamesItsToken(before, claims, id) {
      assert NamesItsToken(after, claims, id);
    }
  }

  /** A commit changes nothing or stores the row it returns, and then adds one audit event. */
  lemma CommitTransacts(db: DB, call: Call, now: int, commits: bool)
    requires Proper(db) && now > 0 && Commits(call)
    ensures var (after, r) := Commit(db, call, now, commits); Transacted(db, after, r)
  {
    match call {
      case UpdateCommit(actor, user, expected, _, current) =>
        var audit := UserAudit(actor, "admin", ActionOf(current, user), user.id);
        UpdateTransacts(db, user, expected, Invalidates(current, user), audit, now, commits);
      case CreateCommit(actor, user) =>
        CreateTransacts(db, user, UserAudit(actor, "admin", "user.created", user.id), now, commits);
      case ChangeCommit(verified, _, hash) =>
        var audit := UserAudit(verified.id, "user", "user.password_changed", verified.id);
        PasswordTransacts(db, verified.id, verified.updatedAt, hash, audit, now, commits);
      case RecoverCommit(found, hash) =>
        var audit := UserAudit("", "system", "user.password_recovered", found.id);
        PasswordTransacts(db, found.id, found.updatedAt, hash, audit, now, commits);
    }
  }

  lemma NamedUser(db: DB, username: string)
    requires SoundUsers(db.users) && UserByName(db, username).Some?
    ensures Seen(db, UserByName(db, username).value)
  {
    var id :| HasName(db, username, id) && UserByName(db, username) == Some(db.users[id]);
  }

  lemma RecoveryFinds(db: DB, call: Call)
    requires SoundUsers(db.users) && call.Recover?
    ensures CallSound(db, Read(db, call))
  {
    if UserByName(db, call.username).Some? {
      NamedUser(db, call.username);
    }
  }

  lemma EditReads(db: DB, call: Call)
    requires SoundUsers(db.users) && (call.EditRead? || call.ResetRead?)
    ensures CallSound(db, Read(db, call))
  {}

  lemma UpdateReads(db: DB, call: Call)
    requires SoundUsers(db.users) && CallSound(db, call) && (call.Update? || call.UpdateRead? || call.UpdateCount?)
    ensures CallSound(db, Read(db, call))
  {}

  lemma ReadKeepsCalls(db: DB, call: Call)
    requires SoundUsers(db.users) && CallSound(db, call) && !Commits(call)
    ensures CallSound(db, Read(db, call))
  {
    if call.Recover? {
      RecoveryFinds(db, call);
    } else if call.EditRead? || call.ResetRead? {
      EditReads(db, call);
    } else if call.Update? || call.UpdateRead? || call.UpdateCount? {
      UpdateReads(db, call);
    }
  }

  lemma AdvanceKeepsCalls(db: DB, call: Call, now: int, commits: bool)
    requires Proper(db) && now > 0 && CallSound(db, call)
    ensures var (after, next) := Advance(db, call, now, commits); Preserves(db, after) && CallSound(after, next)
  {
    if Commits(call) {
      CommitTransacts(db, call, now, commits);
    } else {
      ReadKeepsCalls(db, call);
    }
  }

  lemma IssuedBearerIsSound(db: DB, first: DB, second: DB, sha: Hashing, username: string, secret: string,
                            repository: string,
                            actions: seq<string>, now: int)
    requires Evolved(first, db) && Evolved(second, db)
    ensures var r := Issue(first, second, sha, username, secret, repository, actions, now); r.Success? ==>
              BearerSound(db, r.value)
  {
    var r := Issue(first, second, sha, username, secret, repository, actions, now);
    if r.Success? && r.value.userID != "" {
      var id :| HasHash(second, sha(secret), id) && TokenByHash(second, sha(secret)) == Some(second.tokens[id]);
      assert NamesItsToken(db, r.value, id);
    }
  }

  predicate OnProofs(action: Action) {
    action.IssueToken? || action.RevokeOwn? || action.RevokeAny? || action.OpenSession? || action.CloseSession?
      || action.CloseSessions?
  }

  // What a login does to the database.
  lemma LoginOpens(sys: System, action: Action) returns (login: Result<User, Failing>, session: Session, after: DB)
    requires Enabled(sys, action) && action.OpenSession?
    ensures login == AuthenticateWeb(action.first, action.username, action.verifies)
    ensures session == Session(action.id, session.userID, action.hash, action.csrfHash, 0, action.now + action.idle,
                               action.now + action.absolute, 0)
    ensures after == Apply(sys, action).db
    ensures if login.Success? then
              && session.userID == login.value.id
              && after == SessionCreated(sys.db, session, action.now, action.commits).0
            else after == sys.db
  {
    login, after := AuthenticateWeb(action.first, action.username, action.verifies), Apply(sys, action).db;
    session := NewSession(action.id, if login.Success? then login.value.id else "", action.hash, action.csrfHash,
                          action.now, action.idle, action.absolute);
  }

  lemma OpeningKeepsDB(sys: System, action: Action)
    requires Proper(sys.db) && Enabled(sys, action) && action.OpenSession?
    ensures Preserves(sys.db, Apply(sys, action).db)
  {
    var login, session, after := LoginOpens(sys, action);
    SessionTransacts(sys.db, session, action.now, action.commits);
  }

  lemma ProofsKeepDB(sys: System, action: Action)
    requires Proper(sys.db) && Enabled(sys, action) && OnProofs(action)
    ensures Preserves(sys.db, Apply(sys, action).db)
  {
    var db := sys.db;
    match action {
      case IssueToken(id, userID, caption, lifetime, hash, now, commits) =>
        var token := NewToken(id, userID, caption, lifetime, hash, now);
        if token.Some? {
          TokenTransacts(db, token.value, OwnAudit(userID, "docker_token.created", id), now, commits);
        }
      case RevokeOwn(userID, id, now, commits) =>
        OwnRevocationTransacts(db, userID, id, OwnAudit(userID, "docker_token.revoked", id), now, commits);
      case RevokeAny(id, now) => RevocationTransacts(db, id, now);
      case OpenSession(_, _, _, _, _, _, _, _, _, _) => OpeningKeepsDB(sys, action);
      case CloseSession(id, now) => RevocationTransacts(db, id, now);
      case CloseSessions(userID, now) => SessionsRevoked(db.sessions, db.users, userID, now);
    }
  }

  lemma ActionKeepsDB(sys: System, action: Action)
    requires Sound(sys) && Enabled(sys, action)
    ensures Preserves(sys.db, Apply(sys, action).db)
  {
    if OnProofs(action) {
      ProofsKeepDB(sys, action);
    } else if action.Continue? {
      AdvanceKeepsCalls(sys.db, sys.calls[action.slot], action.now, action.commits);
    } else if action.Bootstrap? {
      var audit := UserAudit("", "system", "user.bootstrap", action.user.id);
      BootstrapTransacts(sys.db, action.user, audit, action.now, action.commits);
    }
  }

  lemma ActionIsSound(sys: System, action: Action)
    requires Sound(sys) && Enabled(sys, action)
    ensures Sound(Apply(sys, action)) && Evolved(sys.db, Apply(sys, action).db)
  {
    var after := Apply(sys, action);
    ActionKeepsDB(sys, action);
    forall slot | slot in after.calls ensures CallSound(after.db, after.calls[slot]) {
      if action.Continue? && action.slot == slot {
        AdvanceKeepsCalls(sys.db, sys.calls[slot], action.now, action.commits);
      } else if slot in sys.calls {
        SeenStaysSeen(sys.db, after.db, sys.calls[slot], Claims("", "", "", "", [], 0));
      }
    }
    forall claims | claims in after.bearers ensures BearerSound(after.db, claims) {
      if claims in sys.bearers {
        SeenStaysSeen(sys.db, after.db, Finished(Success(None)), claims);
      } else {
        IssuedBearerIsSound(sys.db, action.first, action.second, action.sha, action.username, action.secret,
                            action.repository, action.actions, action.now);
      }
    }
  }

  ghost predicate Executes(sys: System, actions: seq<Action>, end: System)
    decreases |actions|
  {
    if actions == [] then sys == end
    else Enabled(sys, actions[0]) && Executes(Apply(sys, actions[0]), actions[1..], end)
  }

  lemma {:induction false} RunIsSound(sys: System, actions: seq<Action>, end: System)
    requires Sound(sys) && Executes(sys, actions, end)
    ensures Sound(end) && Evolved(sys.db, end.db)
    decreases |actions|
  {
    if actions != [] {
      var next := Apply(sys, actions[0]);
      ActionIsSound(sys, actions[0]);
      RunIsSound(next, actions[1..], end);
      EvolvedTransitive(sys.db, next.db, end.db);
    }
  }
}
