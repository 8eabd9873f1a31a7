// Who a secret proves to be: docker tokens and web sessions (internal/auth/accounts.go) and the bearer
// tokens of internal/auth/oci_tokens.go.
//
// Hashing is a parameter. A bearer token is its claims; its signature verifies exactly when the claims
// were issued under the key in use. A check makes two queries, so it takes the database at each.

module Tokens {
  import opened Text
  import opened Identity

  type Hashing = string -> string

  const SECOND: int := 1_000_000_000
  const BEARER_LIFETIME: int := 5 * 60 * SECOND
  const MAX_LIFETIME: int := 90 * 24 * 60 * 60 * SECOND

  datatype Principal = Anonymous | LocalUser(id: string, username: string)

  datatype Claims = Claims(userID: string, username: string, tokenHash: string, repository: string,
                           actions: seq<string>, expiresAt: int)

  predicate HasHash(db: DB, hash: string, id: string) { id in db.tokens && db.tokens[id].hash == hash }

  ghost function TokenByHash(db: DB, hash: string): Option<Token> {
    if id :| HasHash(db, hash, id) then Some(db.tokens[id]) else None
  }

  predicate SessionHasHash(db: DB, hash: string, id: string) { id in db.sessions && db.sessions[id].hash == hash }

  ghost function SessionByHash(db: DB, hash: string): Option<Session> {
    if id :| SessionHasHash(db, hash, id) then Some(db.sessions[id]) else None
  }

  predicate HasName(db: DB, username: string, id: string) { id in db.users && db.users[id].username == username }

  ghost function UserByName(db: DB, username: string): Option<User> {
    if id :| HasName(db, username, id) then Some(db.users[id]) else None
  }

  function UserByID(db: DB, id: string): Option<User> { if id in db.users then Some(db.users[id]) else None }

  // ---------------------------------------------------------------- docker tokens

  /** DockerTokenService.Issue: the row to insert. */
  function NewToken(id: string, userID: string, caption: string, lifetime: int, hash: string, now: int): Option<Token> {
    if lifetime <= 0 || lifetime > MAX_LIFETIME then None
    else Some(Token(id, userID, TrimSpace(caption), hash, 0, now + lifetime, 0))
  }

  function OwnAudit(userID: string, action: string, target: string): Audit {
    Audit(userID, "user", action, "docker_token", target, "success", 0)
  }

  predicate TokenHolds(user: Option<User>, token: Option<Token>, now: int) {
    && user.Some? && user.value.enabled && token.Some? && token.value.userID == user.value.id
    && token.value.revokedAt == 0 && now < token.value.expiresAt
  }

  ghost function AuthenticateWithToken(first: DB, second: DB, sha: Hashing, username: string, secret: string, now: int)
    : Result<(User, Token), Failing>
  {
    var user, token := UserByName(first, username), TokenByHash(second, sha(secret));
    if TokenHolds(user, token, now) then Success((user.value, token.value)) else Failure(InvalidCredentials)
  }

  ghost function ValidateHash(first: DB, second: DB, userID: string, hash: string, now: int): Result<User, Failing> {
    var token, user := TokenByHash(first, hash), UserByID(second, userID);
    if TokenHolds(user, token, now) then Success(user.value) else Failure(InvalidCredentials)
  }

  // ---------------------------------------------------------------- web sessions

  /** AccountService.AuthenticateWeb, the first half of a login; `verifies` checks the password against a stored
      hash. */
  ghost function AuthenticateWeb(db: DB, username: string, verifies: string -> bool): Result<User, Failing> {
    var user := UserByName(db, username);
    if user.Some? && verifies(user.value.passwordHash)
      && user.value.enabled then Success(user.value) else Failure(InvalidCredentials)
  }

  /** WebSessionService.Create: the row to insert. */
  function NewSession(id: string, userID: string, hash: string, csrfHash: string, now: int, idle: int,
                      absolute: int): Session {
    Session(id, userID, hash, csrfHash, 0, now + idle, now + absolute, 0)
  }

  ghost function AuthenticateSession(first: DB, second: DB, sha: Hashing, secret: string,
                                     now: int): Result<(User, Session), Failing> {
    match SessionByHash(first, sha(secret))
    case None => Failure(InvalidSession)
    case Some(session) =>
      if session.revokedAt != 0 || now >= session.idleExpiresAt
        || now >= session.absoluteExpiresAt then Failure(InvalidSession)
      else
        match UserByID(second, session.userID)
        case None => Failure(InvalidSession)
        case Some(user) => if user.enabled then Success((user, session)) else Failure(InvalidSession)
  }

  ghost function ValidateSession(first: DB, second: DB, sha: Hashing, secret: string, csrf: string,
                                 now: int): Result<User, Failing> {
    match AuthenticateSession(first, second, sha, secret, now)
    case Failure(e) => Failure(e)
    case Success(found) => if sha(csrf) == found.1.csrfHash then Success(found.0) else Failure(InvalidCSRF)
  }

  // ---------------------------------------------------------------- bearer tokens

  predicate KnownAction(action: string) { action == "pull" || action == "push" }

  // Every known action once, in the order it first appears.
  method NormalizedActions(actions: seq<string>) returns (result: seq<string>)
    ensures result == Normalized(actions)
  {
    result := [];
    assert actions[..|actions|] == actions;
    for i := 0 to |actions|
      invariant result == Normalized(actions[..i])
    {
      assert actions[..i + 1][..i] == actions[..i];
      if (actions[i] == "pull" || actions[i] == "push") && actions[i] !in result {
        result := result + [actions[i]];
      }
    }
  }

  function Normalized(actions: seq<string>): seq<string> {
    if actions == [] then []
    else
      var earlier, last := Normalized(actions[..|actions| - 1]), actions[|actions| - 1];
      if KnownAction(last) && last !in earlier then earlier + [last] else earlier
  }

  lemma {:induction false} NormalizedIsASet(actions: seq<string>)
    ensures forall a :: a in Normalized(actions) <==> a in actions && KnownAction(a)
    ensures forall i, j :: 0 <= i < j < |Normalized(actions)| ==> Normalized(actions)[i] != Normalized(actions)[j]
  {
    if actions != [] {
      NormalizedIsASet(actions[..|actions| - 1]);
      assert actions == actions[..|actions| - 1] + [actions[|actions| - 1]];
    }
  }

  ghost function Issue(first: DB, second: DB, sha: Hashing, username: string, secret: string, repository: string,
                       actions: seq<string>, now: int): Result<Claims, Failing>
  {
    var claims := Claims("", "", "", repository, Normalized(actions), (now + BEARER_LIFETIME) / SECOND);
    if username != "" || secret != "" then
      match AuthenticateWithToken(first, second, sha, username, secret, now)
      case Failure(e) => Failure(e)
      case Success(found) => Success(claims.(userID := found.0.id, username := found.0.username, tokenHash :=
                                             found.1.hash))
    else if "push" in claims.actions then Failure(InvalidCredentials)
    else Success(claims)
  }

  ghost function Authenticate(signed: set<Claims>, first: DB, second: DB, claims: Claims, repository: string,
                              action: string,
                              now: int): Result<Principal, Failing>
  {
    if claims !in signed || now >= claims.expiresAt * SECOND || claims.repository != repository
       || (action != "" && action !in claims.actions) then Failure(InvalidAccessToken)
    else if claims.userID == "" then
      if action != "" && action != "pull" then Failure(InvalidAccessToken) else Success(Anonymous)
    else
      match ValidateHash(first, second, claims.userID, claims.tokenHash, now)
      case Failure(_) => Failure(InvalidAccessToken)
      case Success(user) => Success(LocalUser(user.id, user.username))
  }

  // ---------------------------------------------------------------- a sound database

  predicate SameName(users: map<string, User>, a: string, b: string) {
    a in users && b in users && users[a].username == users[b].username
  }

  predicate SameToken(tokens: map<string, Token>, a: string, b: string) {
    a in tokens && b in tokens && tokens[a].hash == tokens[b].hash
  }

  predicate SameSession(sessions: map<string, Session>, a: string, b: string) {
    a in sessions && b in sessions && sessions[a].hash == sessions[b].hash
  }

  ghost predicate SoundUsers(users: map<string, User>) {
    && (forall id :: id in users ==> users[id].id == id && ValidUser(users[id]))
    && (forall a, b :: SameName(users, a, b) ==> a == b)
  }

  ghost predicate SoundTokens(tokens: map<string, Token>, users: map<string, User>) {
    && (forall id :: id in tokens ==> tokens[id].id == id && tokens[id].userID in users)
    && (forall a, b :: SameToken(tokens, a, b) ==> a == b)
  }

  ghost predicate SoundSessions(sessions: map<string, Session>, users: map<string, User>) {
    && (forall id :: id in sessions ==> sessions[id].id == id && sessions[id].userID in users)
    && (forall a, b :: SameSession(sessions, a, b) ==> a == b)
  }

  ghost predicate SoundDB(db: DB) {
    SoundUsers(db.users) && SoundTokens(db.tokens, db.users) && SoundSessions(db.sessions, db.users)
  }

  lemma BlankIsNoID(user: User)
    requires ValidUser(user)
    ensures user.id != ""
  {
    assert TrimSpace("") == "";
  }

  lemma BearerExpiry(now: int)
    ensures var expiry := (now + BEARER_LIFETIME) / SECOND * SECOND;
            now + BEARER_LIFETIME - SECOND < expiry <= now + BEARER_LIFETIME
  {}

  /** A bearer just issued authenticates for exactly the actions that were asked for: with credentials as
      their user, without as nobody and never to push; and no bearer outlives five minutes. */
  lemma IssuedBearerAuthenticates(db: DB, sha: Hashing, username: string, secret: string, repository: string,
                                  actions: seq<string>, now: int, action: string)
    requires SoundDB(db)
    requires Issue(db, db, sha, username, secret, repository, actions, now).Success?
    ensures var claims := Issue(db, db, sha, username, secret, repository, actions, now).value;
            var r := Authenticate({claims}, db, db, claims, repository, action, now);
            && (r.Success? <==> action == "" || (action in actions && KnownAction(action)))
            && (r.Success? && (username != "" || secret != "") ==> r.value.LocalUser? && r.value.username == username)
            && (r.Success? && username == "" && secret == "" ==> r.value == Anonymous && action != "push")
            && now + BEARER_LIFETIME - SECOND < claims.expiresAt * SECOND <= now + BEARER_LIFETIME
  {
    NormalizedIsASet(actions);
    BearerExpiry(now);
    if username != "" || secret != "" {
      var user := AuthenticateWithToken(db, db, sha, username, secret, now).value.0;
      assert HasName(db, username, user.id);
      BlankIsNoID(user);
    }
  }
}
