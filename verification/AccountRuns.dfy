// What holds over every interleaving of account calls: an administrator remains, stale reads do no harm,
// revocation lasts.

module AccountRuns {
  import opened Text
  import opened Identity
  import opened Tokens
  import opened Accounts

  const EMPTY := System(DB(map[], map[], map[], []), map[], {})

  // ---------------------------------------------------------------- an enabled administrator remains

  lemma EmptyIsSound()
    ensures Sound(EMPTY)
  {}

  /** Once a user exists an enabled administrator exists for ever, whatever calls interleave, and
      bootstrapping never succeeds again. */
  lemma AnAdministratorRemains(actions: seq<Action>, mid: System, more: seq<Action>, end: System,
                               user: User, audit: Audit, now: int, commits: bool)
    requires Executes(EMPTY, actions, mid) && Executes(mid, more, end) && mid.db.users != map[]
    ensures exists id :: EnabledAdmin(end.db.users, id)
    ensures Bootstrapped(end.db, user, audit, now, commits).1.Failure?
  {
    assert UsersAged(mid.db.users, end.db.users) && Governed(end.db.users) by {
      EmptyIsSound();
      RunIsSound(EMPTY, actions, mid);
      RunIsSound(mid, more, end);
    }
    var someone :| someone in mid.db.users;
    assert someone in end.db.users;
    var id :| id in Admins(end.db.users);
    assert EnabledAdmin(end.db.users, id);
  }

  // ---------------------------------------------------------------- stale reads

  // Whether the call's caller had been shown the mtime it sends, at or before the call read the row.
  predicate ShownMtime(call: Call) { call.UpdateCommit? ==> call.expected <= call.current.updatedAt }

  // What a successful update did when the row it read is the row `replaced` that it replaced.
  ghost predicate Harmless(db: DB, after: DB, row: User, replaced: User) {
    && |after.audit| == |db.audit| + 1 && after.audit[|db.audit|].action == ActionOf(replaced, row)
    && (if Invalidates(replaced, row) then ProofsRevoked(db, after, row.id)
        else after.tokens == db.tokens && after.sessions == db.sessions)
  }

  // Whether the rows a call read are the row it replaced.
  ghost predicate FreshIffShown(call: Call, replaced: User)
    requires call.UpdateCommit?
  {
    && (call.current == replaced <==> call.expected <= call.current.updatedAt)
    && (call.origin != Asked ==> (call.origin.seen == replaced <==> call.expected <= call.origin.seen.updatedAt))
  }

  // Whether two rows of a user agree on what an edit leaves alone.
  predicate EditIgnores(edit: UserEdit, a: User, b: User) {
    && a.id == b.id && a.passwordHash == b.passwordHash
    && (edit.username == None ==> a.username == b.username)
    && (edit.displayName == None ==> a.displayName == b.displayName)
    && (edit.email == None ==> a.email == b.email)
    && (edit.access == None ==> a.access == b.access)
    && (edit.enabled == None ==> a.enabled == b.enabled)
  }

  // Whether the row that was stored is the row it replaced with the change the service was asked for, and no other.
  predicate OnlyApplies(call: Call, replaced: User, row: User)
    requires call.UpdateCommit?
  {
    row == Applied(call.origin, replaced, call.user).(createdAt := replaced.createdAt, updatedAt := row.updatedAt)
  }

  /** No committed change is lost: a stored edit changes the fields it names and no other when its mtime is not
      beyond the row it read; and always exactly when that row agrees with the replaced one on the other fields. */
  lemma EditsLoseNothing(call: Call, replaced: User, row: User)
    requires call.UpdateCommit? && call.origin.FromEdit?
             && call.user == Applied(call.origin, call.origin.seen, call.user)
    requires row == call.user.(createdAt := replaced.createdAt, updatedAt := row.updatedAt)
             && FreshIffShown(call, replaced)
    ensures call.expected <= call.origin.seen.updatedAt ==> OnlyApplies(call, replaced, row)
    ensures OnlyApplies(call, replaced, row) <==> EditIgnores(call.origin.edit, call.origin.seen, replaced)
  {}

  lemma ReadsAreFresh(db: DB, call: Call)
    requires call.UpdateCommit? && CallSound(db, call) && db.users[call.user.id].updatedAt == call.expected
    ensures FreshIffShown(call, db.users[call.user.id])
  {}

  lemma FreshIsHarmless(db: DB, call: Call, now: int)
    requires Proper(db) && now > 0 && call.UpdateCommit? && CallSound(db, call)
             && Succeeds(Commit(db, call, now, true).1)
    ensures call.user.id in db.users
    ensures var (after, r) := Commit(db, call, now, true);
            && Updated(db, after, r, call.user, call.expected, Invalidates(call.current, call.user))
            && (call.current == db.users[call.user.id] ==> Harmless(db, after, r.value.value, call.current))
  {
    var audit := UserAudit(call.actor, "admin", ActionOf(call.current, call.user), call.user.id);
    UpdateTransacts(db, call.user, call.expected, Invalidates(call.current, call.user), audit, now, true);
    UpdateLeaves(db, call, now);
  }

  // What a stored update did, whatever was interleaved.
  ghost predicate Faithful(db: DB, call: Call, after: DB, row: User)
    requires call.UpdateCommit?
  {
    && call.user.id in db.users
    && var replaced := db.users[call.user.id];
       && FreshIffShown(call, replaced)
       && after.users == db.users[row.id := row] && replaced.updatedAt < row.updatedAt
       && (!call.origin.FromEdit? || call.expected <= call.origin.seen.updatedAt ==> OnlyApplies(call, replaced, row))
       && (call.origin.FromEdit? ==>
           (OnlyApplies(call, replaced, row) <==> EditIgnores(call.origin.edit, call.origin.seen, replaced)))
       && (call.expected <= call.current.updatedAt ==> Harmless(db, after, row, replaced))
  }

  lemma OriginIsApplied(db: DB, call: Call, row: User)
    requires call.UpdateCommit? && CallSound(db, call) && db.users[call.user.id].updatedAt == call.expected
    requires row == call.user.(createdAt := db.users[call.user.id].createdAt, updatedAt := row.updatedAt)
    ensures var replaced := db.users[call.user.id];
            && (!call.origin.FromEdit? || call.expected <= call.origin.seen.updatedAt ==>
                OnlyApplies(call, replaced, row))
            && (call.origin.FromEdit? ==>
                (OnlyApplies(call, replaced, row) <==> EditIgnores(call.origin.edit, call.origin.seen, replaced)))
  {
    ReadsAreFresh(db, call);
    if call.origin.FromEdit? {
      EditsLoseNothing(call, db.users[call.user.id], row);
    }
  }

  lemma UpdateIsFaithful(db: DB, call: Call, now: int)
    requires Proper(db) && now > 0 && call.UpdateCommit? && CallSound(db, call)
             && Succeeds(Commit(db, call, now, true).1)
    ensures Faithful(db, call, Commit(db, call, now, true).0, Commit(db, call, now, true).1.value.value)
  {
    FreshIsHarmless(db, call, now);
    ReadsAreFresh(db, call);
    OriginIsApplied(db, call, Commit(db, call, now, true).1.value.value);
  }

  /** When an administrator's update commits, the rows the service read are the row it replaces, in every
      interleaving, exactly when the expected mtime is not beyond the mtime of the row read. Then the stored row
      is the replaced one with nothing but the edit or the new password applied, and identity proofs are revoked
      as they should be. A reset sends the mtime it read, so it always applies to the row it replaces. */
  lemma StaleReadsAreHarmless(actions: seq<Action>, sys: System, slot: nat, now: int)
    requires Executes(EMPTY, actions, sys) && now > 0
    requires slot in sys.calls && sys.calls[slot].UpdateCommit?
             && Succeeds(Commit(sys.db, sys.calls[slot], now, true).1)
    ensures Faithful(sys.db, sys.calls[slot], Commit(sys.db, sys.calls[slot], now, true).0,
                     Commit(sys.db, sys.calls[slot], now, true).1.value.value)
  {
    EmptyIsSound();
    RunIsSound(EMPTY, actions, sys);
    assert CallSound(sys.db, sys.calls[slot]);
    UpdateIsFaithful(sys.db, sys.calls[slot], now);
  }

  lemma UpdateLeaves(db: DB, call: Call, now: int)
    requires call.UpdateCommit? && Succeeds(Commit(db, call, now, true).1)
    ensures var after := Commit(db, call, now, true).0;
            && |after.audit| == |db.audit| + 1 && after.audit[|db.audit|].action == ActionOf(call.current, call.user)
            && (!Invalidates(call.current, call.user) ==> after.tokens == db.tokens && after.sessions == db.sessions)
  {}

  /** A password is changed or recovered only on the row that was read; and a recovery finds its user. */
  lemma PasswordReadsAreFresh(actions: seq<Action>, sys: System, slot: nat, now: int, commits: bool)
    requires Executes(EMPTY, actions, sys) && now > 0
    requires slot in sys.calls && (sys.calls[slot].ChangeCommit? || sys.calls[slot].RecoverCommit?)
    ensures var call := sys.calls[slot];
            var read := if call.ChangeCommit? then call.verified else call.found;
            var (after, r) := Commit(sys.db, call, now, commits);
            && read.id in sys.db.users && r != Success(None)
            && (r.Success? ==> read == sys.db.users[read.id] && ProofsRevoked(sys.db, after, read.id))
  {
    EmptyIsSound();
    RunIsSound(EMPTY, actions, sys);
    var call := sys.calls[slot];
    assert CallSound(sys.db, call);
    var read := if call.ChangeCommit? then call.verified else call.found;
    var audit := if call.ChangeCommit? then UserAudit(read.id, "user", "user.password_changed", read.id)
                 else UserAudit("", "system", "user.password_recovered", read.id);
    PasswordTransacts(sys.db, read.id, read.updatedAt, call.hash, audit, now, commits);
  }

  // ---------------------------------------------------------------- revocation

  // Whether the service, comparing with the row it read, sees that `userID` is disabled or renamed or has the
  // access or the password changed; a password change needs no comparison.
  predicate Notices(call: Call, userID: string) {
    call.UpdateCommit? && call.user.id == userID ==> Invalidates(call.current, call.user)
  }

  // What happened to the proofs of identity of a user whose row changed in such a way.
  ghost predicate RevokesIf(before: DB, after: DB, userID: string, noticed: bool) {
    && userID in before.users && userID in after.users
    && (Invalidates(before.users[userID], after.users[userID]) ==>
          if noticed then ProofsRevoked(before, after, userID)
          else after.tokens == before.tokens && after.sessions == before.sessions)
  }

  lemma UpdateRevokes(db: DB, after: DB, r: Outcome, call: Call, userID: string)
    requires call.UpdateCommit? && CallSound(db, call) && userID in db.users
    requires Updated(db, after, r, call.user, call.expected, Invalidates(call.current, call.user))
    ensures RevokesIf(db, after, userID, Notices(call, userID))
    ensures ShownMtime(call) && Invalidates(db.users[userID], after.users[userID]) ==> Notices(call, userID)
  {
    if Succeeds(r) && call.user.id == userID && ShownMtime(call) {
      assert call.current == db.users[userID];
    }
  }

  lemma PasswordRevokes(db: DB, after: DB, r: Outcome, id: string, expected: int, hash: string, userID: string)
    requires Rekeyed(db, after, r, id, expected, hash) && userID in db.users
    ensures RevokesIf(db, after, userID, true)
  {}

  lemma CreationRevokes(db: DB, after: DB, r: Outcome, user: User, userID: string)
    requires Landed(db, after, r) && userID in db.users && (Succeeds(r) ==> r.value.value.id !in db.users)
    ensures RevokesIf(db, after, userID, true)
  {}

  ghost predicate CommitRevokesIf(db: DB, call: Call, after: DB, userID: string) {
    && RevokesIf(db, after, userID, Notices(call, userID))
    && (ShownMtime(call) && Invalidates(db.users[userID], after.users[userID]) ==> Notices(call, userID))
  }

  lemma PasswordCommitRevokes(db: DB, call: Call, now: int, commits: bool, userID: string)
    requires Proper(db) && now > 0 && (call.ChangeCommit? || call.RecoverCommit?) && userID in db.users
    ensures CommitRevokesIf(db, call, Commit(db, call, now, commits).0, userID)
  {
    var read := if call.ChangeCommit? then call.verified else call.found;
    var audit := if call.ChangeCommit? then UserAudit(read.id, "user", "user.password_changed", read.id)
                 else UserAudit("", "system", "user.password_recovered", read.id);
    var (after, r) := PasswordChanged(db, read.id, read.updatedAt, call.hash, audit, now, commits);
    PasswordTransacts(db, read.id, read.updatedAt, call.hash, audit, now, commits);
    PasswordRevokes(db, after, r, read.id, read.updatedAt, call.hash, userID);
  }

  lemma UpdateCommitRevokes(db: DB, call: Call, now: int, commits: bool, userID: string)
    requires Proper(db) && now > 0 && call.UpdateCommit? && CallSound(db, call) && userID in db.users
    ensures CommitRevokesIf(db, call, Commit(db, call, now, commits).0, userID)
  {
    var audit := UserAudit(call.actor, "admin", ActionOf(call.current, call.user), call.user.id);
    var invalidate := Invalidates(call.current, call.user);
    var (after, r) := UserUpdated(db, call.user, call.expected, invalidate, audit, now, commits);
    UpdateTransacts(db, call.user, call.expected, invalidate, audit, now, commits);
    UpdateRevokes(db, after, r, call, userID);
  }

  lemma CommitRevokes(db: DB, call: Call, now: int, commits: bool, userID: string)
    requires Proper(db) && now > 0 && Commits(call) && CallSound(db, call) && userID in db.users
    ensures CommitRevokesIf(db, call, Commit(db, call, now, commits).0, userID)
  {
    if call.UpdateCommit? {
      UpdateCommitRevokes(db, call, now, commits, userID);
    } else if call.CreateCommit? {
      var audit := UserAudit(call.actor, "admin", "user.created", call.user.id);
      var (after, r) := UserCreated(db, call.user, audit, now, commits);
      CreateTransacts(db, call.user, audit, now, commits);
      CreationRevokes(db, after, r, call.user, userID);
    } else {
      PasswordCommitRevokes(db, call, now, commits, userID);
    }
  }

  lemma OnlyCallsChangeUsers(sys: System, action: Action)
    requires Enabled(sys, action) && !action.Continue?
    ensures Apply(sys, action).db.users == sys.db.users || (action.Bootstrap? && sys.db.users == map[])
  {}

  // Whether a step that changed what identifies a user did it knowingly.
  predicate Noticed(sys: System, action: Action, userID: string) {
    action.Continue? && action.slot in sys.calls ==> Notices(sys.calls[action.slot], userID)
  }

  // A step that disables or renames a user or changes the access or the password.
  ghost predicate Changes(sys: System, action: Action, userID: string) {
    && Enabled(sys, action) && userID in sys.db.users && userID in Apply(sys, action).db.users
    && Invalidates(sys.db.users[userID], Apply(sys, action).db.users[userID])
  }

  lemma NoticeDecides(before: DB, after: DB, userID: string, noticed: bool)
    requires RevokesIf(before, after, userID, noticed) && Invalidates(before.users[userID], after.users[userID])
    ensures ProofsRevoked(before, after, userID) <==> noticed || ProofsRevoked(before, before, userID)
    ensures !noticed ==> after.tokens == before.tokens && after.sessions == before.sessions
  {}

  /** Such a step revokes the user's proofs exactly when the service notices it, or none were left to revoke; and it
      does notice when its caller had been shown the mtime. Unnoticed, it leaves every token and session as it was. */
  lemma ChangeRevokesIff(sys: System, action: Action, userID: string)
    requires Sound(sys) && Changes(sys, action, userID)
    ensures var after := Apply(sys, action).db;
            && (ProofsRevoked(sys.db, after, userID) <==>
                Noticed(sys, action, userID) || ProofsRevoked(sys.db, sys.db, userID))
            && (!Noticed(sys, action, userID) ==> after.tokens == sys.db.tokens && after.sessions == sys.db.sessions)
            && (action.Continue? && ShownMtime(sys.calls[action.slot]) ==> Noticed(sys, action, userID))
  {
    if action.Continue? {
      var call := sys.calls[action.slot];
      assert CallSound(sys.db, call);
      if Commits(call) {
        CommitRevokes(sys.db, call, action.now, action.commits, userID);
        NoticeDecides(sys.db, Apply(sys, action).db, userID, Notices(call, userID));
      }
    } else {
      OnlyCallsChangeUsers(sys, action);
    }
  }

  lemma TokenIsFound(db: DB, hash: string, id: string)
    requires SoundTokens(db.tokens, db.users) && HasHash(db, hash, id)
    ensures TokenByHash(db, hash) == Some(db.tokens[id])
  {
    forall other | HasHash(db, hash, other) ensures other == id {
      assert SameToken(db.tokens, id, other);
    }
  }

  lemma SessionIsFound(db: DB, hash: string, id: string)
    requires SoundSessions(db.sessions, db.users) && SessionHasHash(db, hash, id)
    ensures SessionByHash(db, hash) == Some(db.sessions[id])
  {
    forall other | SessionHasHash(db, hash, other) ensures other == id {
      assert SameSession(db.sessions, id, other);
    }
  }

  lemma UserIsNamed(db: DB, id: string)
    requires SoundUsers(db.users) && id in db.users
    ensures UserByName(db, db.users[id].username) == Some(db.users[id])
  {
    assert HasName(db, db.users[id].username, id);
    forall other | HasName(db, db.users[id].username, other) ensures other == id {
      assert SameName(db.users, other, id);
    }
  }

  lemma TokenAuthenticatesIff(db: DB, id: string, sha: Hashing, secret: string, t: int)
    requires SoundDB(db) && HasHash(db, sha(secret), id)
    ensures db.tokens[id].userID in db.users
    ensures var token := db.tokens[id];
            var user := db.users[token.userID];
            AuthenticateWithToken(db, db, sha, user.username, secret, t) ==
              if user.enabled && token.revokedAt == 0
                && t < token.expiresAt then Success((user, token)) else Failure(InvalidCredentials)
  {
    TokenIsFound(db, sha(secret), id);
    UserIsNamed(db, db.tokens[id].userID);
  }

  lemma SessionAuthenticatesIff(db: DB, id: string, sha: Hashing, secret: string, csrf: string, t: int)
    requires SoundDB(db) && SessionHasHash(db, sha(secret), id) && db.sessions[id].csrfHash == sha(csrf)
    ensures db.sessions[id].userID in db.users
    ensures var session := db.sessions[id];
            var user := db.users[session.userID];
            ValidateSession(db, db, sha, secret, csrf, t) ==
              if user.enabled && session.revokedAt == 0 && t < session.idleExpiresAt
                && t < session.absoluteExpiresAt then Success(user)
              else Failure(InvalidSession)
  {
    SessionIsFound(db, sha(secret), id);
  }

  lemma CreatedTokenStays(db: DB, token: Token, audit: Audit, now: int, commits: bool, later: DB)
    requires TokenCreated(db, token, audit, now, commits).1.Success?
             && Evolved(TokenCreated(db, token, audit, now, commits).0, later)
    ensures HasHash(later, token.hash, token.id)
    ensures later.tokens[token.id].userID == token.userID && later.tokens[token.id].expiresAt == token.expiresAt
  {
    var after := TokenCreated(db, token, audit, now, commits).0;
    assert token.id in after.tokens && TokenAged(after.tokens[token.id], later.tokens[token.id]);
  }

  lemma CreatedSessionStays(db: DB, session: Session, now: int, commits: bool, later: DB)
    requires SessionCreated(db, session, now, commits).1.Success?
             && Evolved(SessionCreated(db, session, now, commits).0, later)
    ensures SessionHasHash(later, session.hash, session.id)
    ensures var row := later.sessions[session.id];
            && row.userID == session.userID && row.csrfHash == session.csrfHash
            && row.idleExpiresAt == session.idleExpiresAt && row.absoluteExpiresAt == session.absoluteExpiresAt
  {
    var after := SessionCreated(db, session, now, commits).0;
    assert session.id in after.sessions && SessionAged(after.sessions[session.id], later.sessions[session.id]);
  }

  /** However the database evolves, a docker token that was issued proves its user, under the name the user then
      has, exactly while the user is enabled, the token is not revoked and its lifetime is not over. */
  lemma IssuedTokenAuthenticates(db: DB, id: string, userID: string, caption: string, lifetime: int, sha: Hashing,
                                 secret: string,
                                 audit: Audit, now: int, commits: bool, token: Token, later: DB, t: int)
    requires NewToken(id, userID, caption, lifetime, sha(secret), now) == Some(token)
    requires TokenCreated(db, token, audit, now, commits).1.Success?
    requires Evolved(TokenCreated(db, token, audit, now, commits).0, later) && SoundDB(later)
    ensures userID in later.users && id in later.tokens
    ensures AuthenticateWithToken(later, later, sha, later.users[userID].username, secret, t) ==
            if later.users[userID].enabled && later.tokens[id].revokedAt == 0 && t < now + lifetime
            then Success((later.users[userID], later.tokens[id])) else Failure(InvalidCredentials)
  {
    CreatedTokenStays(db, token, audit, now, commits, later);
    TokenAuthenticatesIff(later, id, sha, secret, t);
  }

  // `id` was revoked by the time of `after`, so no later look-up finds it usable.
  lemma RevokedTokenFails(before: DB, after: DB, later: DB, hash: string, id: string)
    requires SoundDB(later) && Evolved(before, after) && Evolved(after, later)
    requires HasHash(before, hash, id) && after.tokens[id].revokedAt != 0
    ensures TokenByHash(later, hash).Some? && TokenByHash(later, hash).value.revokedAt != 0
  {
    assert TokenAged(before.tokens[id], after.tokens[id]) && TokenAged(after.tokens[id], later.tokens[id]);
    TokenIsFound(later, hash, id);
  }

  lemma RevokedSessionFails(before: DB, after: DB, later: DB, hash: string, id: string)
    requires SoundDB(later) && Evolved(before, after) && Evolved(after, later)
    requires SessionHasHash(before, hash, id) && after.sessions[id].revokedAt != 0
    ensures SessionByHash(later, hash).Some? && SessionByHash(later, hash).value.revokedAt != 0
  {
    assert SessionAged(before.sessions[id], after.sessions[id]) && SessionAged(after.sessions[id], later.sessions[id]);
    SessionIsFound(later, hash, id);
  }

  // The proofs of identity of `userID` that `before` holds have been revoked by `after`, for good.
  ghost predicate Withdrawn(before: DB, after: DB, first: DB, second: DB, userID: string) {
    && ProofsRevoked(before, after, userID) && Evolved(before, after)
    && SoundDB(first) && SoundDB(second) && Evolved(after, first) && Evolved(after, second)
  }

  lemma SessionStaysRevoked(before: DB, after: DB, first: DB, second: DB, sha: Hashing, secret: string, now: int,
                            id: string)
    requires SessionHasHash(before, sha(secret), id)
             && Withdrawn(before, after, first, second, before.sessions[id].userID)
    ensures AuthenticateSession(first, second, sha, secret, now).Failure?
  {
    RevokedSessionFails(before, after, first, sha(secret), id);
  }

  lemma TokenStaysRevoked(before: DB, after: DB, first: DB, second: DB, sha: Hashing, username: string,
                          secret: string, now: int, id: string)
    requires HasHash(before, sha(secret), id) && Withdrawn(before, after, first, second, before.tokens[id].userID)
    ensures AuthenticateWithToken(first, second, sha, username, secret, now).Failure?
  {
    RevokedTokenFails(before, after, second, sha(secret), id);
  }

  lemma BearerStaysRevoked(before: DB, after: DB, first: DB, second: DB, claims: Claims, signed: set<Claims>,
                           repository: string,
                           act: string, now: int)
    requires claims.userID != "" && BearerSound(before, claims)
             && Withdrawn(before, after, first, second, claims.userID)
    ensures Authenticate(signed, first, second, claims, repository, act, now).Failure?
  {
    var id :| NamesItsToken(before, claims, id);
    RevokedTokenFails(before, after, first, claims.tokenHash, id);
  }

  lemma ChangeWithdraws(sys: System, action: Action, userID: string, more: seq<Action>, first: System,
                        evenMore: seq<Action>, second: System)
    requires Sound(sys) && Enabled(sys, action) && ProofsRevoked(sys.db, Apply(sys, action).db, userID)
    requires Executes(Apply(sys, action), more, first) && Executes(first, evenMore, second)
    ensures Withdrawn(sys.db, Apply(sys, action).db, first.db, second.db, userID)
  {
    var after := Apply(sys, action);
    ActionIsSound(sys, action);
    RunIsSound(after, more, first);
    RunIsSound(first, evenMore, second);
    EvolvedTransitive(after.db, first.db, second.db);
  }

  // Every proof of identity of `userID` in `before` fails, whichever later databases its two queries see.
  ghost predicate NeverAuthenticates(before: System, first: DB, second: DB, userID: string) {
    && (forall sha: Hashing, secret, now, id | SessionHasHash(before.db, sha(secret), id)
        && before.db.sessions[id].userID == userID ::
          AuthenticateSession(first, second, sha, secret, now).Failure?)
    && (forall sha: Hashing, username, secret, now, id | HasHash(before.db, sha(secret), id)
        && before.db.tokens[id].userID == userID ::
          AuthenticateWithToken(first, second, sha, username, secret, now).Failure?)
    && (forall claims, signed, repository, act, now | claims in before.bearers && claims.userID == userID ::
          Authenticate(signed, first, second, claims, repository, act, now).Failure?)
  }

  lemma WithdrawnNeverAuthenticates(sys: System, after: DB, first: DB, second: DB, userID: string)
    requires Withdrawn(sys.db, after, first, second, userID) && userID != ""
    requires forall claims :: claims in sys.bearers ==> BearerSound(sys.db, claims)
    ensures NeverAuthenticates(sys, first, second, userID)
  {
    forall sha: Hashing, secret, now, id | SessionHasHash(sys.db, sha(secret), id)
      && sys.db.sessions[id].userID == userID
      ensures AuthenticateSession(first, second, sha, secret, now).Failure? {
      SessionStaysRevoked(sys.db, after, first, second, sha, secret, now, id);
    }
    forall sha: Hashing, username, secret, now, id | HasHash(sys.db, sha(secret), id)
      && sys.db.tokens[id].userID == userID
      ensures AuthenticateWithToken(first, second, sha, username, secret, now).Failure? {
      TokenStaysRevoked(sys.db, after, first, second, sha, username, secret, now, id);
    }
    forall claims, signed, repository, act, now | claims in sys.bearers && claims.userID == userID
      ensures Authenticate(signed, first, second, claims, repository, act, now).Failure? {
      BearerStaysRevoked(sys.db, after, first, second, claims, signed, repository, act, now);
    }
  }

  /** Once a step disables or renames a user or changes the access or the password, and notices that it does, no
      session, docker token or bearer token that existed before authenticates in any later state, whatever happens
      in between. Every such step notices but an administrator's update whose caller sent an mtime beyond the one
      it was shown; and the proofs are revoked exactly if it notices, unless none were left to revoke. */
  lemma RevocationIsPermanent(actions: seq<Action>, sys: System, action: Action, userID: string,
                              more: seq<Action>, first: System, evenMore: seq<Action>, second: System)
    requires Executes(EMPTY, actions, sys) && Changes(sys, action, userID)
    requires Executes(Apply(sys, action), more, first) && Executes(first, evenMore, second)
    ensures ProofsRevoked(sys.db, Apply(sys, action).db, userID) <==>
            Noticed(sys, action, userID) || ProofsRevoked(sys.db, sys.db, userID)
    ensures ProofsRevoked(sys.db, Apply(sys, action).db, userID) ==>
              NeverAuthenticates(sys, first.db, second.db, userID)
    ensures action.Continue? && ShownMtime(sys.calls[action.slot]) ==> Noticed(sys, action, userID)
  {
    EmptyIsSound();
    RunIsSound(EMPTY, actions, sys);
    ChangeRevokesIff(sys, action, userID);
    if ProofsRevoked(sys.db, Apply(sys, action).db, userID) {
      ChangeWithdraws(sys, action, userID, more, first, evenMore, second);
      BlankIsNoID(sys.db.users[userID]);
      WithdrawnNeverAuthenticates(sys, Apply(sys, action).db, first.db, second.db, userID);
    }
  }

  /** After a change that was not noticed every docker token that was good goes on proving its user, under the name
      the user then has, for as long as the user is enabled and the token has not expired. */
  lemma UnnoticedChangeRevokesNothing(actions: seq<Action>, sys: System, action: Action, userID: string, id: string,
                                      sha: Hashing, secret: string, t: int)
    requires Executes(EMPTY, actions, sys) && Changes(sys, action, userID) && !Noticed(sys, action, userID)
    requires HasHash(sys.db, sha(secret), id) && sys.db.tokens[id].userID == userID && sys.db.tokens[id].revokedAt == 0
    ensures var after := Apply(sys, action).db;
            AuthenticateWithToken(after, after, sha, after.users[userID].username, secret, t).Success? <==>
            after.users[userID].enabled && t < sys.db.tokens[id].expiresAt
  {
    EmptyIsSound();
    RunIsSound(EMPTY, actions, sys);
    ChangeRevokesIff(sys, action, userID);
    ActionIsSound(sys, action);
    TokenAuthenticatesIff(Apply(sys, action).db, id, sha, secret, t);
  }

  // ---------------------------------------------------------------- logins

  // Whether a session proves its user exactly while the user is enabled, it is not revoked and neither deadline has
  // passed.
  ghost predicate ProvesItsUser(db: DB, session: Session, sha: Hashing, secret: string, csrf: string, t: int) {
    && session.userID in db.users && session.id in db.sessions
    && (ValidateSession(db, db, sha, secret, csrf, t).Success? <==>
          && db.users[session.userID].enabled && db.sessions[session.id].revokedAt == 0
          && t < session.idleExpiresAt && t < session.absoluteExpiresAt)
  }

  // The session a login opens, for the user it read in `open.first`.
  ghost predicate Opens(db: DB, open: Action, session: Session) {
    && open.OpenSession? && AuthenticateWeb(open.first, open.username, open.verifies).Success?
    && session == NewSession(open.id, AuthenticateWeb(open.first, open.username, open.verifies).value.id, open.hash,
                             open.csrfHash, open.now, open.idle, open.absolute)
    && SessionCreated(db, session, open.now, open.commits).1.Success?
  }

  /** A web session that was opened proves its user exactly while the user is enabled, the session is not
      revoked and neither of its deadlines has passed. */
  lemma OpenedSessionAuthenticates(db: DB, session: Session, now: int, commits: bool, later: DB, sha: Hashing,
                                   secret: string,
                             csrf: string, t: int)
    requires SessionCreated(db, session, now, commits).1.Success?
             && Evolved(SessionCreated(db, session, now, commits).0, later)
    requires SoundDB(later) && session.hash == sha(secret) && session.csrfHash == sha(csrf)
    ensures ProvesItsUser(later, session, sha, secret, csrf, t)
  {
    CreatedSessionStays(db, session, now, commits, later);
    SessionAuthenticatesIff(later, session.id, sha, secret, csrf, t);
  }

  lemma OpeningCreates(mid: System, open: Action, session: Session)
    requires Enabled(mid, open) && Opens(mid.db, open, session)
    ensures Apply(mid, open).db == SessionCreated(mid.db, session, open.now, open.commits).0
    ensures session.hash == open.hash && session.csrfHash == open.csrfHash
  {}

  lemma OpenedSessionLasts(mid: System, open: Action, session: Session, more: seq<Action>, end: System, sha: Hashing,
                           secret: string, csrf: string, t: int)
    requires Sound(mid) && Enabled(mid, open) && Opens(mid.db, open, session) && Executes(Apply(mid, open), more, end)
    requires open.hash == sha(secret) && open.csrfHash == sha(csrf)
    ensures ProvesItsUser(end.db, session, sha, secret, csrf, t)
  {
    ActionIsSound(mid, open);
    RunIsSound(Apply(mid, open), more, end);
    OpeningCreates(mid, open, session);
    OpenedSessionAuthenticates(mid.db, session, open.now, open.commits, end.db, sha, secret, csrf, t);
  }

  /** A login reads the password in one state and opens the session in a later one. Revocation covers the sessions
      there are when it commits: a session opened afterwards by a login that read before proves its user exactly while
      the user is enabled, the session is not revoked and its deadlines have not passed. So disabling a user stops such
      a login, and changing the password does not. */
  lemma LoginStandsOnItsRead(actions: seq<Action>, sys: System, action: Action, more: seq<Action>, mid: System,
                             open: Action, session: Session, evenMore: seq<Action>, end: System, sha: Hashing,
                             secret: string, csrf: string, t: int)
    requires Executes(EMPTY, actions, sys) && Changes(sys, action, session.userID)
             && Executes(Apply(sys, action), more, mid)
    requires Opens(mid.db, open, session) && open.first == sys.db && Enabled(mid, open)
    requires open.hash == sha(secret) && open.csrfHash == sha(csrf) && Executes(Apply(mid, open), evenMore, end)
    ensures ProvesItsUser(end.db, session, sha, secret, csrf, t)
  {
    EmptyIsSound();
    RunIsSound(EMPTY, actions, sys);
    ActionIsSound(sys, action);
    RunIsSound(Apply(sys, action), more, mid);
    OpenedSessionLasts(mid, open, session, evenMore, end, sha, secret, csrf, t);
  }
}
