// When a bearer token is issued and what it is good for, in any later database (internal/auth/oci_tokens.go).

module Bearers {
  import opened Text
  import opened Identity
  import opened Tokens
  import opened Accounts
  import opened AccountRuns

  const FIVE_MINUTES: int := 300 * 1_000_000_000

  lemma NamedIff(db: DB, username: string, user: User)
    requires SoundUsers(db.users)
    ensures UserByName(db, username) == Some(user) <==>
            user.id in db.users && db.users[user.id] == user && user.username == username
  {
    if user.id in db.users && db.users[user.id] == user && user.username == username {
      UserIsNamed(db, user.id);
    }
    if UserByName(db, username).Some? {
      var id :| HasName(db, username, id) && UserByName(db, username).value == db.users[id];
    }
  }

  lemma FoundIff(db: DB, hash: string, token: Token)
    requires SoundTokens(db.tokens, db.users)
    ensures TokenByHash(db, hash) == Some(token) <==>
            token.id in db.tokens && db.tokens[token.id] == token && token.hash == hash
  {
    if token.id in db.tokens && db.tokens[token.id] == token && token.hash == hash {
      TokenIsFound(db, hash, token.id);
    }
    if TokenByHash(db, hash).Some? {
      var id :| HasHash(db, hash, id) && TokenByHash(db, hash).value == db.tokens[id];
    }
  }

  // A user and a token that are good together under a name and a secret.
  predicate Proves(first: DB, second: DB, sha: Hashing, username: string, secret: string, now: int, user: User,
                   token: Token) {
    && user.id in first.users && first.users[user.id] == user && user.username == username && user.enabled
    && token.id in second.tokens && second.tokens[token.id] == token && token.hash == sha(secret)
    && token.userID == user.id && token.revokedAt == 0 && now < token.expiresAt
  }

  /** A docker token proves its user by name exactly if both are found, belong together and are good. */
  lemma TokenProvesIff(first: DB, second: DB, sha: Hashing, username: string, secret: string, now: int, user: User,
                       token: Token)
    requires SoundDB(first) && SoundDB(second)
    ensures AuthenticateWithToken(first, second, sha, username, secret, now) == Success((user, token)) <==>
            Proves(first, second, sha, username, secret, now, user, token)
  {
    NamedIff(first, username, user);
    FoundIff(second, sha(secret), token);
  }

  /** Without credentials a bearer is issued for nobody, unless it is to push; with credentials for their user and
      token. */
  lemma IssuedIff(first: DB, second: DB, sha: Hashing, username: string, secret: string, repository: string,
                  actions: seq<string>, now: int, claims: Claims)
    requires SoundDB(first) && SoundDB(second)
    ensures Issue(first, second, sha, username, secret, repository, actions, now) == Success(claims) <==>
            && claims.repository == repository && claims.actions == Normalized(actions)
            && claims.expiresAt == (now + FIVE_MINUTES) / SECOND
            && if username == "" && secret == ""
               then claims.userID == "" && claims.username == "" && claims.tokenHash == "" && "push" !in actions
               else claims.username == username && claims.tokenHash == sha(secret)
                    && exists user: User, token: Token :: claims.userID == user.id
                         && AuthenticateWithToken(first, second, sha, username, secret, now) == Success((user, token))
  {
    NormalizedIsASet(actions);
    var r := AuthenticateWithToken(first, second, sha, username, secret, now);
    if r.Success? {
      TokenProvesIff(first, second, sha, username, secret, now, r.value.0, r.value.1);
    }
  }

  // The docker token a bearer stands on still proves its user.
  predicate StillProves(first: DB, second: DB, tokenID: string, userID: string, t: int) {
    && tokenID in first.tokens && first.tokens[tokenID].revokedAt == 0 && t < first.tokens[tokenID].expiresAt
    && userID in second.users && second.users[userID].enabled
  }

  lemma HashProvesIff(first: DB, second: DB, userID: string, hash: string, tokenID: string, t: int)
    requires SoundDB(first) && SoundDB(second) && HasHash(first, hash, tokenID)
             && first.tokens[tokenID].userID == userID
    ensures var r := ValidateHash(first, second, userID, hash, t);
            && (r.Success? <==> StillProves(first, second, tokenID, userID, t))
            && (r.Success? ==> r.value == second.users[userID])
  {
    TokenIsFound(first, hash, tokenID);
  }

  // A bearer presented as what it was issued for, and in time.
  predicate Presentable(claims: Claims, signed: set<Claims>, actions: seq<string>, other: string, action: string,
                        t: int) {
    && claims in signed && other == claims.repository && (action == "" || (action in actions && KnownAction(action)))
    && t < claims.expiresAt * SECOND
  }

  // Whether a bearer authenticates, and as whom.
  ghost predicate GoodFor(r: Result<Principal, Failing>, presentable: bool, proves: bool, user: Principal) {
    (r.Success? <==> presentable && proves) && (r.Success? ==> r.value == user)
  }

  lemma AnonymousIsGoodIff(signed: set<Claims>, first: DB, second: DB, claims: Claims, actions: seq<string>,
                           other: string, action: string, t: int)
    requires claims.actions == Normalized(actions) && claims.userID == "" && "push" !in actions
    ensures GoodFor(Authenticate(signed, first, second, claims, other, action, t),
                    Presentable(claims, signed, actions, other, action, t), true, Anonymous)
  {
    NormalizedIsASet(actions);
  }

  lemma UserIsGoodIff(signed: set<Claims>, first: DB, second: DB, claims: Claims, actions: seq<string>,
                      other: string, action: string, t: int, tokenID: string)
    requires claims.actions == Normalized(actions) && claims.userID != "" && SoundDB(first) && SoundDB(second)
    requires HasHash(first, claims.tokenHash, tokenID) && first.tokens[tokenID].userID == claims.userID
    ensures var proves := StillProves(first, second, tokenID, claims.userID, t);
            GoodFor(Authenticate(signed, first, second, claims, other, action, t),
                    Presentable(claims, signed, actions, other, action, t), proves,
                    if proves then LocalUser(claims.userID, second.users[claims.userID].username) else Anonymous)
  {
    NormalizedIsASet(actions);
    HashProvesIff(first, second, claims.userID, claims.tokenHash, tokenID, t);
  }

  lemma IssuedFor(first0: DB, second0: DB, sha: Hashing, username: string, secret: string, repository: string,
                  actions: seq<string>, now: int, claims: Claims) returns (tokenID: string)
    requires SoundDB(first0) && SoundDB(second0)
    requires Issue(first0, second0, sha, username, secret, repository, actions, now) == Success(claims)
    ensures claims.repository == repository && claims.actions == Normalized(actions)
    ensures claims.expiresAt == (now + FIVE_MINUTES) / SECOND
    ensures claims.userID == "" <==> username == "" && secret == ""
    ensures claims.userID == "" ==> "push" !in actions
    ensures claims.userID != "" ==>
              && claims.tokenHash == sha(secret) && HasHash(second0, sha(secret), tokenID)
              && second0.tokens[tokenID].userID == claims.userID && claims.userID in first0.users
  {
    tokenID := "";
    IssuedIff(first0, second0, sha, username, secret, repository, actions, now, claims);
    if username != "" || secret != "" {
      var (user, token) := AuthenticateWithToken(first0, second0, sha, username, secret, now).value;
      TokenProvesIff(first0, second0, sha, username, secret, now, user, token);
      tokenID := token.id;
      BlankIsNoID(user);
    }
  }

  /** Whatever signed bearers there are and however the databases evolve: a bearer that was issued authenticates
      exactly if it is signed, presented for its own repository and an action it was issued for, before its expiry, and
      its docker token and user are still good, if it has any. It then proves that user, or nobody. */
  lemma IssuedBearerIsGoodIff(first0: DB, second0: DB, sha: Hashing, username: string, secret: string,
                              repository: string,
                              actions: seq<string>, now: int, claims: Claims, signed: set<Claims>, first: DB,
                                second: DB,
                              other: string, action: string, t: int) returns (tokenID: string)
    requires SoundDB(first0) && SoundDB(second0) && SoundDB(first) && SoundDB(second) && Evolved(second0, first)
    requires Issue(first0, second0, sha, username, secret, repository, actions, now) == Success(claims)
    ensures username != "" || secret != "" ==> HasHash(second0, sha(secret), tokenID)
    ensures var r := Authenticate(signed, first, second, claims, other, action, t);
            && (r.Success? <==>
                  && claims in signed && other == repository
                     && (action == "" || (action in actions && KnownAction(action)))
                  && t < (now + FIVE_MINUTES) / SECOND * SECOND
                  && ((username == "" && secret == "") || StillProves(first, second, tokenID, claims.userID, t)))
            && (r.Success? ==>
                  r.value == if username == "" && secret == "" then Anonymous
                             else LocalUser(claims.userID, second.users[claims.userID].username))
  {
    tokenID := IssuedFor(first0, second0, sha, username, secret, repository, actions, now, claims);
    if claims.userID != "" {
      assert TokenAged(second0.tokens[tokenID], first.tokens[tokenID]);
    }
    if claims.userID == "" {
      AnonymousIsGoodIff(signed, first, second, claims, actions, other, action, t);
    } else {
      UserIsGoodIff(signed, first, second, claims, actions, other, action, t, tokenID);
    }
  }

  /** Whoever signed it, a bearer that proves nobody is for pulling only; and why one proves nothing is not told. */
  lemma AnonymousOnlyPulls(signed: set<Claims>, first: DB, second: DB, claims: Claims, repository: string,
                           action: string, t: int)
    ensures var r := Authenticate(signed, first, second, claims, repository, action, t);
            && (r == Success(Anonymous) ==> action == "" || action == "pull")
            && (r.Failure? ==> r.error == InvalidAccessToken)
  {}

  /** A session needs its CSRF token: with another, whose hash differs, it proves nobody. */
  lemma SessionNeedsItsCsrf(first: DB, second: DB, sha: Hashing, secret: string, csrf: string, now: int, id: string)
    requires SoundDB(first) && SessionHasHash(first, sha(secret), id) && sha(csrf) != first.sessions[id].csrfHash
    ensures ValidateSession(first, second, sha, secret, csrf, now) ==
            Failure(if AuthenticateSession(first, second, sha, secret, now).Success?
                    then InvalidCSRF else InvalidSession)
  {
    SessionIsFound(first, sha(secret), id);
  }

  /** A login succeeds exactly for an enabled user of that name whose password hash verifies. */
  lemma LoginIff(db: DB, username: string, verifies: string -> bool, user: User)
    requires SoundDB(db)
    ensures AuthenticateWeb(db, username, verifies) == Success(user) <==>
            && user.id in db.users && db.users[user.id] == user && user.username == username
            && user.enabled && verifies(user.passwordHash)
  {
    NamedIff(db, username, user);
  }

  /** A docker token is good for its lifetime, which is positive and at most 90 days, and belongs to who asked. */
  lemma TokenLivesAsAsked(id: string, userID: string, caption: string, lifetime: int, hash: string, now: int)
    ensures NewToken(id, userID, caption, lifetime, hash, now).Some? <==> 0 < lifetime <= 90 * 86_400 * SECOND
    ensures var token := NewToken(id, userID, caption, lifetime, hash, now);
            token.Some? ==>
              && token.value.expiresAt == now + lifetime && token.value.userID == userID && token.value.hash == hash
              && token.value.id == id && token.value.revokedAt == 0
  {}
}
