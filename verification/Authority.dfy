// Who may change an account and what each change does, said without the transactions that make it.

module Authority {
  import opened Text
  import opened Identity
  import opened Tokens
  import opened Accounts
  import opened AccountRuns
  import opened Bearers

  // ---------------------------------------------------------------- what a change records

  // One audit event more: the one given, at its own time or else at `at`.
  ghost predicate Logs(before: DB, after: DB, audit: Audit, at: int) {
    && |after.audit| == |before.audit| + 1 && before.audit <= after.audit
    && var event := after.audit[|before.audit|];
       && event == audit.(timestamp := event.timestamp)
       && event.timestamp == (if audit.timestamp != 0 then audit.timestamp else at)
  }

  // The user's tokens that were good are revoked at `at`, and nothing else about any token changed.
  predicate OnlyRevokesTokens(before: map<string, Token>, after: map<string, Token>, userID: string, at: int) {
    && after.Keys == before.Keys
    && forall id :: id in before ==>
        && after[id] == before[id].(revokedAt := after[id].revokedAt)
        && after[id].revokedAt ==
           if before[id].userID == userID && before[id].revokedAt == 0 then at else before[id].revokedAt
  }

  predicate OnlyRevokesSessions(before: map<string, Session>, after: map<string, Session>, userID: string, at: int) {
    && after.Keys == before.Keys
    && forall id :: id in before ==>
        && after[id] == before[id].(revokedAt := after[id].revokedAt)
        && after[id].revokedAt ==
           if before[id].userID == userID && before[id].revokedAt == 0 then at else before[id].revokedAt
  }

  predicate SameProofs(before: DB, after: DB) { after.tokens == before.tokens && after.sessions == before.sessions }

  // `at` is the first time from `now` on that is after `last`.
  predicate FirstAfter(at: int, now: int, last: int) { at > last && at >= now && (at == now || at == last + 1) }

  // The user `row` is there now, nobody else's row changed, and the proofs of identity either all stayed or are
  // revoked.
  ghost predicate Replaces(before: DB, after: DB, row: User, audit: Audit, revokes: bool) {
    && after.users == before.users[row.id := row] && Logs(before, after, audit, row.updatedAt)
    && if revokes
       then OnlyRevokesTokens(before.tokens, after.tokens, row.id, row.updatedAt)
            && OnlyRevokesSessions(before.sessions, after.sessions, row.id, row.updatedAt)
       else SameProofs(before, after)
  }

  predicate NameIsFree(users: map<string, User>, id: string, username: string) {
    forall other :: other in users && users[other].username == username ==> other == id
  }

  // ---------------------------------------------------------------- changing users

  predicate HasAdministrator(users: map<string, User>) {
    exists id :: id in users && users[id].enabled && users[id].access == "admin"
  }

  lemma OnlyMember(s: set<string>, x: string)
    requires x in s
    ensures |s| <= 1 <==> s == {x}
  {
    assert s == {x} + (s - {x});
  }

  lemma AdministratorsLeft(users: map<string, User>, user: User)
    requires user.id in users && StepsDown(users[user.id], user)
    ensures |Admins(users)| <= 1 <==> !HasAdministrator(users[user.id := user])
  {
    OnlyMember(Admins(users), user.id);
    if Admins(users) == {user.id} {
      forall id | id in users && id != user.id ensures !Administers(users[id]) {
        assert id !in Admins(users);
      }
    } else {
      var id :| id in Admins(users) && id != user.id;
      assert id in users[user.id := user];
    }
  }

  // The update is asked for by an enabled administrator and leaves one.
  ghost predicate UpdateIsAllowed(users: map<string, User>, user: User, actor: string) {
    && actor in users && users[actor].enabled && users[actor].access == "admin"
    && HasAdministrator(users[user.id := user])
  }

  /** An update is stored exactly if its records are valid, its actor is an enabled administrator in the database it
      commits to, the row has the expected mtime, no other user has the name and an enabled administrator is left. It
      then stores the record with the row's creation time, at a later mtime. */
  lemma UpdateIff(db: DB, user: User, expected: int, invalidate: bool, audit: Audit, now: int, commits: bool)
    ensures var (after, r) := UserUpdated(db, user, expected, invalidate, audit, now, commits);
            && (Succeeds(r) <==>
                && ValidUser(user) && ValidAudit(audit) && UpdateIsAllowed(db.users, user, audit.actorUserID) && commits
                && user.id in db.users && db.users[user.id].updatedAt == expected
                && NameIsFree(db.users, user.id, user.username))
            && (if Succeeds(r) then
                  var row := r.value.value;
                  && row == user.(createdAt := db.users[user.id].createdAt, updatedAt := row.updatedAt)
                  && FirstAfter(row.updatedAt, now, expected) && Replaces(db, after, row, audit, invalidate)
                else after == db)
  {
    if user.id in db.users {
      if StepsDown(db.users[user.id], user) {
        AdministratorsLeft(db.users, user);
      } else {
        var after := db.users[user.id := user];
        assert EnabledAdmin(db.users, audit.actorUserID) ==> EnabledAdmin(after, audit.actorUserID);
      }
    }
  }

  /** Why an update is not stored: its records, then its actor, then the row, its mtime and the administrators left. */
  lemma UpdateRefusal(db: DB, user: User, expected: int, invalidate: bool, audit: Audit, now: int, commits: bool)
    ensures var r := UserUpdated(db, user, expected, invalidate, audit, now, commits).1;
            && (r == Failure(InvalidRecord) <==> !ValidUser(user) || !ValidAudit(audit))
            && (r != Failure(InvalidRecord) && !EnabledAdmin(db.users, audit.actorUserID) ==> r == Failure(Conflict))
            && (r == Success(None) <==>
                && r != Failure(InvalidRecord) && EnabledAdmin(db.users, audit.actorUserID) && user.id !in db.users)
            && (r != Failure(InvalidRecord) && user.id in db.users ==>
                  (r == Failure(Conflict) <==>
                   !UpdateIsAllowed(db.users, user, audit.actorUserID) || db.users[user.id].updatedAt != expected))
            && (r.Failure? ==> r.error in {InvalidRecord, Conflict, Storage})
  {
    UpdateIff(db, user, expected, invalidate, audit, now, commits);
    if user.id in db.users && StepsDown(db.users[user.id], user) {
      AdministratorsLeft(db.users, user);
    } else if user.id in db.users {
      var after := db.users[user.id := user];
      assert EnabledAdmin(db.users, audit.actorUserID) ==> EnabledAdmin(after, audit.actorUserID);
    }
  }

  /** A user is created exactly if the records are valid, the actor is an enabled administrator in the database it
      commits to, and neither the id nor the name is taken. */
  lemma CreationIff(db: DB, user: User, audit: Audit, now: int, commits: bool)
    ensures var (after, r) := UserCreated(db, user, audit, now, commits);
            && (Succeeds(r) <==>
                && ValidUser(user) && ValidAudit(audit) && commits && user.id !in db.users
                && audit.actorUserID in db.users && db.users[audit.actorUserID].enabled
                && db.users[audit.actorUserID].access == "admin" && NameIsFree(db.users, user.id, user.username))
            && r != Success(None)
            && (if r.Success? then
                  && r.value.value == user.(createdAt := now, updatedAt := now)
                  && Replaces(db, after, r.value.value, audit, false)
                else after == db)
            && (r == Failure(InvalidRecord) <==> !ValidUser(user) || !ValidAudit(audit))
            && (r == Failure(Conflict) <==>
                ValidUser(user) && ValidAudit(audit) && !EnabledAdmin(db.users, audit.actorUserID))
  {}

  /** The first user is made exactly if there is none, and it is an enabled administrator. */
  lemma BootstrapIff(db: DB, user: User, audit: Audit, now: int, commits: bool)
    ensures var (after, r) := Bootstrapped(db, user, audit, now, commits);
            && (Succeeds(r) <==>
                && ValidUser(user) && ValidAudit(audit) && user.enabled && user.access == "admin" && commits
                && forall id :: id !in db.users)
            && r != Success(None)
            && (if r.Success? then
                  && r.value.value == user.(createdAt := now, updatedAt := now)
                  && Replaces(db, after, r.value.value, audit, false)
                else after == db)
            && (r == Failure(Conflict) <==>
                && ValidUser(user) && ValidAudit(audit) && user.enabled && user.access == "admin"
                && exists id :: id in db.users)
  {
    assert db.users == map[] <==> forall id :: id !in db.users;
  }

  // A user changes the own password while enabled; the system recovers anybody's.
  predicate MayRekey(user: User, audit: Audit) {
    || (audit.actorUserID == "" && audit.actorRole == "system" && audit.action == "user.password_recovered")
    || (audit.actorUserID == user.id && audit.actorRole == "user" && user.enabled)
  }

  /** A password is stored exactly if it is a valid change by the enabled user or a recovery, of a row with the expected
      mtime. Nothing else about the row changes, and all the user's proofs of identity are revoked. */
  lemma RekeyingIff(db: DB, id: string, expected: int, hash: string, audit: Audit, now: int, commits: bool)
    requires id in db.users ==> db.users[id].id == id
    ensures var (after, r) := PasswordChanged(db, id, expected, hash, audit, now, commits);
            && (Succeeds(r) <==>
                && hash != "" && ValidAudit(audit) && commits && id in db.users && MayRekey(db.users[id], audit)
                && db.users[id].updatedAt == expected)
            && (if Succeeds(r) then
                  var row := r.value.value;
                  && row == db.users[id].(passwordHash := hash, updatedAt := row.updatedAt)
                  && FirstAfter(row.updatedAt, now, expected) && Replaces(db, after, row, audit, true)
                else after == db)
            && (if hash == "" || !ValidAudit(audit) then r == Failure(InvalidRecord)
                else id in db.users && MayRekey(db.users[id], audit) && db.users[id].updatedAt != expected ==>
                  r == Failure(Conflict))
  {}

  // ---------------------------------------------------------------- tokens and sessions

  /** A docker token is stored exactly for an enabled user who asks for it, under an id and a hash nobody has. It is not
      revoked. */
  lemma TokenIff(db: DB, token: Token, audit: Audit, now: int, commits: bool)
    ensures var (after, r) := TokenCreated(db, token, audit, now, commits);
            && (r.Success? <==>
                && ValidToken(token) && ValidAudit(audit) && audit.actorUserID == token.userID && commits
                && token.userID in db.users && db.users[token.userID].enabled && token.id !in db.tokens
                && forall id :: id in db.tokens ==> db.tokens[id].hash != token.hash)
            && (if r.Success? then
                  && r.value == token.(createdAt := r.value.createdAt, revokedAt := 0)
                  && r.value.createdAt == (if token.createdAt != 0 then token.createdAt else now)
                  && after == db.(tokens := db.tokens[token.id := r.value], audit := after.audit)
                  && Logs(db, after, audit, r.value.createdAt)
                else after == db)
            && (r == Failure(Conflict) ==> token.userID in db.users ==> !db.users[token.userID].enabled)
  {}

  /** A session is stored exactly for a user there is, enabled or not, under an id and a hash nobody has. */
  lemma SessionIff(db: DB, session: Session, now: int, commits: bool)
    ensures var (after, r) := SessionCreated(db, session, now, commits);
            && (r.Success? <==>
                && ValidSession(session) && commits && session.userID in db.users && session.id !in db.sessions
                && forall id :: id in db.sessions ==> db.sessions[id].hash != session.hash)
            && (if r.Success? then
                  && r.value == session.(createdAt := r.value.createdAt)
                  && r.value.createdAt == (if session.createdAt != 0 then session.createdAt else now)
                  && after == db.(sessions := db.sessions[session.id := r.value])
                else after == db)
  {}

  predicate OnlyRevokesToken(before: map<string, Token>, after: map<string, Token>, id: string, at: int) {
    if id in before then
      after == before[id := before[id].(revokedAt := if before[id].revokedAt != 0 then before[id].revokedAt else at)]
    else after == before
  }

  predicate OnlyRevokesSession(before: map<string, Session>, after: map<string, Session>, id: string, at: int) {
    if id in before then
      after == before[id := before[id].(revokedAt := if before[id].revokedAt != 0 then before[id].revokedAt else at)]
    else after == before
  }

  /** Users revoke their own tokens only: asking for another's answers as if it were done and does nothing. */
  lemma OwnRevocationIff(db: DB, userID: string, id: string, audit: Audit, at: int, commits: bool)
    ensures var (after, r) := OwnTokenRevoked(db, userID, id, audit, at, commits);
            var mine := id in db.tokens && db.tokens[id].userID == userID;
            && (r.Success? <==> ValidAudit(audit) && (mine ==> commits))
            && (if r.Success? && mine then
                  && after == db.(tokens := after.tokens, audit := after.audit) && Logs(db, after, audit, at)
                  && OnlyRevokesToken(db.tokens, after.tokens, id, at)
                else after == db)
  {}

  // ---------------------------------------------------------------- who changes what, in every run

  // What the audit event of a call must say.
  predicate Signs(event: Audit, call: Call)
    requires Commits(call)
  {
    && event.targetType == "user" && event.outcome == "success"
    && match call
       case UpdateCommit(actor, user, _, _, _) =>
         event.actorUserID == actor && event.actorRole == "admin" && event.targetID == user.id
       case CreateCommit(actor, user) =>
         && event.actorUserID == actor && event.actorRole == "admin" && event.targetID == user.id
         && event.action == "user.created"
       case ChangeCommit(verified, _, _) =>
         && event.actorUserID == verified.id && event.actorRole == "user" && event.targetID == verified.id
         && event.action == "user.password_changed"
       case RecoverCommit(found, _) =>
         && event.actorUserID == "" && event.actorRole == "system" && event.targetID == found.id
         && event.action == "user.password_recovered"
  }

  // The row of `id` changes, or appears.
  predicate Touches(before: DB, after: DB, id: string) {
    id in after.users && (id in before.users ==> after.users[id] != before.users[id])
  }

  predicate OnlyRekeys(before: User, after: User) {
    after == before.(passwordHash := after.passwordHash, updatedAt := after.updatedAt)
  }

  // The right a call has to change the row of `id`, in the database it commits to.
  predicate Entitled(db: DB, after: DB, call: Call, id: string)
    requires Commits(call) && id in after.users
  {
    match call
    case UpdateCommit(actor, user, _, _, _) =>
      && id == user.id && id in db.users
      && actor in db.users && db.users[actor].enabled && db.users[actor].access == "admin"
    case CreateCommit(actor, user) =>
      && id == user.id && id !in db.users
      && actor in db.users && db.users[actor].enabled && db.users[actor].access == "admin"
    case ChangeCommit(verified, verifies, hash) =>
      && id == verified.id && id in db.users && db.users[id].enabled && verifies(db.users[id].passwordHash)
      && OnlyRekeys(db.users[id], after.users[id]) && after.users[id].passwordHash == hash
    case RecoverCommit(found, hash) =>
      && id == found.id && id in db.users && db.users[id].access == "admin"
      && OnlyRekeys(db.users[id], after.users[id]) && after.users[id].passwordHash == hash
  }

  ghost predicate IsSigned(db: DB, after: DB, call: Call)
    requires Commits(call)
  {
    |after.audit| == |db.audit| + 1 && db.audit <= after.audit && Signs(after.audit[|db.audit|], call)
  }

  ghost predicate IsRightful(db: DB, after: DB, call: Call, id: string)
    requires Commits(call)
  {
    Touches(db, after, id) ==> Entitled(db, after, call, id) && IsSigned(db, after, call)
  }

  lemma UpdateIsEntitled(db: DB, call: Call, now: int, commits: bool, id: string)
    requires call.UpdateCommit?
    ensures IsRightful(db, Commit(db, call, now, commits).0, call, id)
  {
    var audit := UserAudit(call.actor, "admin", ActionOf(call.current, call.user), call.user.id);
    UpdateIff(db, call.user, call.expected, Invalidates(call.current, call.user), audit, now, commits);
  }

  lemma CreationIsEntitled(db: DB, call: Call, now: int, commits: bool, id: string)
    requires call.CreateCommit?
    ensures IsRightful(db, Commit(db, call, now, commits).0, call, id)
  {
    CreationIff(db, call.user, UserAudit(call.actor, "admin", "user.created", call.user.id), now, commits);
  }

  lemma RekeyingIsEntitled(db: DB, call: Call, now: int, commits: bool, id: string)
    requires SoundUsers(db.users) && CallSound(db, call) && (call.ChangeCommit? || call.RecoverCommit?)
    ensures IsRightful(db, Commit(db, call, now, commits).0, call, id)
  {
    var read := if call.ChangeCommit? then call.verified else call.found;
    var audit := if call.ChangeCommit? then UserAudit(read.id, "user", "user.password_changed", read.id)
                 else UserAudit("", "system", "user.password_recovered", read.id);
    RekeyingIff(db, read.id, read.updatedAt, call.hash, audit, now, commits);
  }

  // The step is the first user's, or a call's that has the right to it.
  ghost predicate Rightful(sys: System, action: Action, after: DB, id: string)
    requires id in after.users
  {
    if action.Bootstrap? then
      && sys.db.users == map[] && id == action.user.id && after.users[id].enabled && after.users[id].access == "admin"
      && Logs(sys.db, after, Audit("", "system", "user.bootstrap", "user", id, "success", 0), action.now)
    else
      && action.Continue? && action.slot in sys.calls && Commits(sys.calls[action.slot])
      && Entitled(sys.db, after, sys.calls[action.slot], id) && IsSigned(sys.db, after, sys.calls[action.slot])
  }

  lemma CommitIsRightful(db: DB, call: Call, now: int, commits: bool, id: string)
    requires SoundUsers(db.users) && CallSound(db, call) && Commits(call)
    ensures IsRightful(db, Commit(db, call, now, commits).0, call, id)
  {
    if call.UpdateCommit? {
      UpdateIsEntitled(db, call, now, commits, id);
    } else if call.CreateCommit? {
      CreationIsEntitled(db, call, now, commits, id);
    } else {
      RekeyingIsEntitled(db, call, now, commits, id);
    }
  }

  lemma ContinuedStep(sys: System, action: Action) returns (after: DB)
    requires Enabled(sys, action) && action.Continue?
    ensures after == Apply(sys, action).db
    ensures if Commits(sys.calls[action.slot])
            then after == Commit(sys.db, sys.calls[action.slot], action.now, action.commits).0 else after == sys.db
  {
    after := Apply(sys, action).db;
  }

  lemma ContinuationIsRightful(sys: System, action: Action, id: string)
    requires Sound(sys) && Enabled(sys, action) && action.Continue? && Touches(sys.db, Apply(sys, action).db, id)
    ensures Rightful(sys, action, Apply(sys, action).db, id)
  {
    var after := ContinuedStep(sys, action);
    assert CallSound(sys.db, sys.calls[action.slot]);
    if Commits(sys.calls[action.slot]) {
      CommitIsRightful(sys.db, sys.calls[action.slot], action.now, action.commits, id);
    }
  }

  lemma StepIsRightful(sys: System, action: Action, id: string)
    requires Sound(sys) && Enabled(sys, action) && Touches(sys.db, Apply(sys, action).db, id)
    ensures Rightful(sys, action, Apply(sys, action).db, id)
  {
    if action.Continue? {
      ContinuationIsRightful(sys, action, id);
    } else {
      OnlyCallsChangeUsers(sys, action);
      if action.Bootstrap? {
        BootstrapIff(sys.db, action.user, UserAudit("", "system", "user.bootstrap", action.user.id), action.now,
                     action.commits);
      }
    }
  }

  /** In every run a step that changes a user, or makes one, is the making of the first administrator, an update or a
      creation by somebody who is an enabled administrator in the database it commits to, the user's own change of a
      password that still verified, or a recovery of an administrator's password. It says so in the audit log. */
  lemma UsersChangeByRight(actions: seq<Action>, sys: System, action: Action, id: string)
    requires Executes(EMPTY, actions, sys) && Enabled(sys, action)
    requires Touches(sys.db, Apply(sys, action).db, id)
    ensures Rightful(sys, action, Apply(sys, action).db, id)
  {
    EmptyIsSound();
    RunIsSound(EMPTY, actions, sys);
    StepIsRightful(sys, action, id);
  }

  /** Under any other actor an update or a creation fails when it commits, and nothing changes. */
  lemma OthersChangeNothing(db: DB, call: Call, now: int, commits: bool)
    requires call.UpdateCommit? || call.CreateCommit?
    requires call.actor in db.users ==> !db.users[call.actor].enabled || db.users[call.actor].access != "admin"
    ensures Commit(db, call, now, commits).0 == db && Commit(db, call, now, commits).1.Failure?
  {
    if call.UpdateCommit? {
      var audit := UserAudit(call.actor, "admin", ActionOf(call.current, call.user), call.user.id);
      UpdateIff(db, call.user, call.expected, Invalidates(call.current, call.user), audit, now, commits);
      UpdateRefusal(db, call.user, call.expected, Invalidates(call.current, call.user), audit, now, commits);
    } else {
      CreationIff(db, call.user, UserAudit(call.actor, "admin", "user.created", call.user.id), now, commits);
    }
  }

  // What every stored user looks like.
  predicate WellFormed(user: User) {
    && user.username != "" && TrimSpace(user.username) == user.username && TrimSpace(user.id) != ""
    && user.passwordHash != "" && user.access in {"user", "admin"}
  }

  /** In every run every stored user has an id, a password hash, one of the two kinds of access and a name of his own
      that is not blank at its ends, and is stored under the id. */
  lemma StoredUsersAreWellFormed(actions: seq<Action>, sys: System, a: string, b: string)
    requires Executes(EMPTY, actions, sys)
    requires a in sys.db.users && b in sys.db.users
    ensures WellFormed(sys.db.users[a]) && sys.db.users[a].id == a
    ensures sys.db.users[a].username == sys.db.users[b].username ==> a == b
  {
    EmptyIsSound();
    RunIsSound(EMPTY, actions, sys);
    assert sys.db.users[a].username == sys.db.users[b].username ==> SameName(sys.db.users, a, b);
  }

  // ---------------------------------------------------------------- where tokens and sessions come from

  // The row of a docker token that was just asked for, and who may ask.
  predicate IssuedBy(db: DB, action: Action, row: Token)
    requires action.IssueToken?
  {
    && row == Token(action.id, action.userID, TrimSpace(action.caption), action.hash, action.now,
                    action.now + action.lifetime, 0)
    && 0 < action.lifetime <= 90 * 86_400 * SECOND && action.userID in db.users && db.users[action.userID].enabled
    && row.id != "" && |row.hash| == 32
  }

  lemma IssuingIff(db: DB, action: Action, token: Token) returns (after: DB)
    requires action.IssueToken? && token == Token(action.id, action.userID, TrimSpace(action.caption), action.hash, 0,
                                                  action.now + action.lifetime, 0)
    requires action.now > 0 && action.lifetime > 0 && (action.userID in db.users ==> action.userID != "")
    ensures after == TokenCreated(db, token, OwnAudit(action.userID, "docker_token.created", action.id), action.now,
                                  action.commits).0
    ensures after != db <==>
            && action.commits && action.id !in db.tokens && action.id != "" && |action.hash| == 32
            && action.userID in db.users && db.users[action.userID].enabled
            && forall id :: id in db.tokens ==> db.tokens[id].hash != action.hash
    ensures after != db ==>
              && after == db.(tokens := db.tokens[action.id := token.(createdAt := action.now)], audit := after.audit)
              && Logs(db, after, Audit(action.userID, "user", "docker_token.created", "docker_token", action.id,
                                       "success", 0), action.now)
  {
    var audit := OwnAudit(action.userID, "docker_token.created", action.id);
    TokenIff(db, token, audit, action.now, action.commits);
    after := TokenCreated(db, token, audit, action.now, action.commits).0;
  }

  // What asking for a docker token does to the database.
  lemma AskingIssues(sys: System, action: Action) returns (token: Token, after: DB)
    requires Enabled(sys, action) && action.IssueToken?
    ensures token == Token(action.id, action.userID, TrimSpace(action.caption), action.hash, 0,
                           action.now + action.lifetime, 0)
    ensures after == Apply(sys, action).db
    ensures if 0 < action.lifetime <= 90 * 86_400 * SECOND then
              after == TokenCreated(sys.db, token, OwnAudit(action.userID, "docker_token.created", action.id),
                                    action.now, action.commits).0
            else after == sys.db
  {
    token := Token(action.id, action.userID, TrimSpace(action.caption), action.hash, 0, action.now + action.lifetime,
                   0);
    after := Apply(sys, action).db;
  }

  /** A docker token is issued exactly to an enabled user who asks for it, for a positive lifetime of at most 90 days
      and under an id and a hash of 32 bytes that are new; and is audited as that user's. */
  lemma TokenIsIssuedIff(sys: System, action: Action) returns (after: DB, row: Token)
    requires SoundUsers(sys.db.users) && Enabled(sys, action) && action.IssueToken?
    ensures after == Apply(sys, action).db
    ensures after != sys.db <==>
            && action.commits && action.id !in sys.db.tokens && IssuedBy(sys.db, action, row)
            && forall id :: id in sys.db.tokens ==> sys.db.tokens[id].hash != action.hash
    ensures after != sys.db ==>
              && after == sys.db.(tokens := sys.db.tokens[action.id := row], audit := after.audit)
              && Logs(sys.db, after, Audit(action.userID, "user", "docker_token.created", "docker_token", action.id,
                                           "success", 0), action.now)
    ensures forall other :: IssuedBy(sys.db, action, other) ==> other == row
  {
    var token;
    token, after := AskingIssues(sys, action);
    row := token.(createdAt := action.now);
    if action.userID in sys.db.users {
      BlankIsNoID(sys.db.users[action.userID]);
    }
    if 0 < action.lifetime <= 90 * 86_400 * SECOND {
      var issued := IssuingIff(sys.db, action, token);
    }
  }

  /** And a docker token appears in no other way. */
  lemma TokensComeFromTheirUsers(sys: System, action: Action, id: string)
    requires Enabled(sys, action) && id !in sys.db.tokens && id in Apply(sys, action).db.tokens
    ensures action.IssueToken? && action.id == id
  {
    if action.Continue? {
      var after := ContinuedStep(sys, action);
      if Commits(sys.calls[action.slot]) {
        ProofsOnlyAge(sys.db, sys.calls[action.slot], action.now, action.commits);
      }
    }
  }

  lemma ProofsOnlyAge(db: DB, call: Call, now: int, commits: bool)
    requires Commits(call)
    ensures Commit(db, call, now, commits).0.tokens.Keys == db.tokens.Keys
    ensures Commit(db, call, now, commits).0.sessions.Keys == db.sessions.Keys
  {}

  lemma LoginProves(db: DB, username: string, verifies: string -> bool)
    requires SoundUsers(db.users) && AuthenticateWeb(db, username, verifies).Success?
    ensures var user := AuthenticateWeb(db, username, verifies).value;
            && user.id in db.users && user == db.users[user.id] && user.enabled && user.username == username
            && verifies(user.passwordHash)
  {
    NamedUser(db, username);
    var id :| HasName(db, username, id) && UserByName(db, username) == Some(db.users[id]);
  }

  // The row of a session that a login opened for the user it had found.
  predicate OpenedBy(action: Action, row: Session)
    requires action.OpenSession?
  {
    && row == Session(action.id, row.userID, action.hash, action.csrfHash, action.now, action.now + action.idle,
                      action.now + action.absolute, 0)
    && row.userID in action.first.users
    && (var user := action.first.users[row.userID];
        user.enabled && user.username == action.username && action.verifies(user.passwordHash))
    && row.id != "" && |row.hash| == 32 && |row.csrfHash| == 32 && row.idleExpiresAt != 0 && row.absoluteExpiresAt != 0
  }

  lemma LoginFinds(action: Action) returns (row: Session)
    requires action.OpenSession? && SoundDB(action.first)
    ensures var login := AuthenticateWeb(action.first, action.username, action.verifies);
            && (login.Success? ==>
                  && row == Session(action.id, login.value.id, action.hash, action.csrfHash, action.now,
                                    action.now + action.idle, action.now + action.absolute, 0)
                  && login.value.id != "" && (OpenedBy(action, row) <==> ValidSession(row)))
            && (login.Failure? ==> forall other :: !OpenedBy(action, other))
            && forall other :: OpenedBy(action, other) ==> other == row
  {
    var login := AuthenticateWeb(action.first, action.username, action.verifies);
    row := Session(action.id, if login.Success? then login.value.id else "", action.hash, action.csrfHash, action.now,
                   action.now + action.idle, action.now + action.absolute, 0);
    if login.Success? {
      LoginProves(action.first, action.username, action.verifies);
      BlankIsNoID(login.value);
    }
    forall other | OpenedBy(action, other) ensures login == Success(action.first.users[other.userID]) {
      LoginIff(action.first, action.username, action.verifies, action.first.users[other.userID]);
    }
  }

  lemma OpeningIff(db: DB, session: Session, now: int, commits: bool) returns (after: DB)
    requires session.createdAt == 0 && session.userID in db.users
    ensures after == SessionCreated(db, session, now, commits).0
    ensures after != db <==>
            && commits && ValidSession(session) && session.id !in db.sessions
            && forall id :: id in db.sessions ==> db.sessions[id].hash != session.hash
    ensures after == db || after == db.(sessions := db.sessions[session.id := session.(createdAt := now)])
  {
    SessionIff(db, session, now, commits);
    after := SessionCreated(db, session, now, commits).0;
  }

  lemma LoginStores(db: DB, action: Action, session: Session) returns (after: DB, row: Session)
    requires action.OpenSession? && SoundDB(action.first) && UsersAged(action.first.users, db.users)
    requires AuthenticateWeb(action.first, action.username, action.verifies).Success?
    requires session == Session(action.id, AuthenticateWeb(action.first, action.username, action.verifies).value.id,
                                action.hash, action.csrfHash, 0, action.now + action.idle, action.now + action.absolute,
                                0)
    ensures after == SessionCreated(db, session, action.now, action.commits).0
    ensures after == db || after == db.(sessions := db.sessions[action.id := row])
    ensures after != db <==>
            && action.commits && action.id !in db.sessions && OpenedBy(action, row)
            && forall id :: id in db.sessions ==> db.sessions[id].hash != action.hash
    ensures forall other :: OpenedBy(action, other) ==> other == row
  {
    row := LoginFinds(action);
    LoginProves(action.first, action.username, action.verifies);
    after := OpeningIff(db, session, action.now, action.commits);
  }

  /** A session is opened exactly for the user whose name and password the login had found good and enabled, with two
      hashes of 32 bytes, under an id and a hash that are new; and is good for `idle` and at most `absolute`. */
  lemma SessionIsOpenedIff(sys: System, action: Action) returns (after: DB, row: Session)
    requires Enabled(sys, action) && action.OpenSession? && SoundDB(action.first)
    ensures after == Apply(sys, action).db
    ensures after == sys.db || after == sys.db.(sessions := sys.db.sessions[action.id := row])
    ensures after != sys.db <==>
            && action.commits && action.id !in sys.db.sessions && OpenedBy(action, row)
            && forall id :: id in sys.db.sessions ==> sys.db.sessions[id].hash != action.hash
    ensures forall other :: OpenedBy(action, other) ==> other == row
  {
    var login, session;
    login, session, after := LoginOpens(sys, action);
    if login.Success? {
      var stored;
      stored, row := LoginStores(sys.db, action, session);
    } else {
      row := LoginFinds(action);
    }
  }

  /** And a session appears in no other way. */
  lemma SessionsComeFromLogins(sys: System, action: Action, id: string)
    requires Enabled(sys, action) && id !in sys.db.sessions && id in Apply(sys, action).db.sessions
    ensures action.OpenSession? && action.id == id
  {
    if action.Continue? {
      var after := ContinuedStep(sys, action);
      if Commits(sys.calls[action.slot]) {
        ProofsOnlyAge(sys.db, sys.calls[action.slot], action.now, action.commits);
      }
    } else if action.OpenSession? {
      var login, session, after := LoginOpens(sys, action);
    }
  }

  /** Each revocation touches exactly what it names: an own token, with an audit event; one token; one session; or all
      the sessions of a user. */
  lemma RevocationsAreExact(sys: System, action: Action)
    requires Enabled(sys, action)
    ensures var before, after := sys.db, Apply(sys, action).db;
            && (action.RevokeOwn? ==>
                  var mine := action.id in before.tokens && before.tokens[action.id].userID == action.userID;
                  && after == before.(tokens := after.tokens, audit := after.audit)
                  && if mine && action.commits && action.id != "" then
                       && OnlyRevokesToken(before.tokens, after.tokens, action.id, action.now)
                       && Logs(before, after, Audit(action.userID, "user", "docker_token.revoked", "docker_token",
                                                    action.id, "success", 0), action.now)
                     else after == before)
            && (action.RevokeAny? ==>
                  && after == before.(tokens := after.tokens)
                  && OnlyRevokesToken(before.tokens, after.tokens, action.id, action.now))
            && (action.CloseSession? ==>
                  && after == before.(sessions := after.sessions)
                  && OnlyRevokesSession(before.sessions, after.sessions, action.id, action.now))
            && (action.CloseSessions? ==>
                  && after == before.(sessions := after.sessions)
                  && OnlyRevokesSessions(before.sessions, after.sessions, action.userID, action.now))
  {}

  /** Every bearer that is issued is remembered, and no other. */
  lemma IssuedBearersAreKept(sys: System, action: Action, claims: Claims)
    requires Enabled(sys, action)
    ensures claims in Apply(sys, action).bearers <==>
            || claims in sys.bearers
            || (action.IssueBearer?
                && Issue(action.first, action.second, action.sha, action.username, action.secret, action.repository,
                         action.actions, action.now) == Success(claims))
  {}
}
