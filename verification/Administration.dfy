// AdminAccountService of internal/auth/accounts.go, as one call running alone: each method does what its
// Call does when nothing is interleaved.

module Administration {
  import opened Text
  import opened Identity
  import opened Tokens
  import opened Accounts
  import opened AccountRuns
  import opened Authority

  function Ahead(call: Call): nat {
    match call
    case Edit(_, _, _, _) => 6
    case EditRead(_, _, _, _) => 5
    case Reset(_, _, _) => 6
    case ResetRead(_, _, _) => 5
    case Update(_, _, _, _) => 4
    case UpdateRead(_, _, _, _) => 3
    case UpdateCount(_, _, _, _, _) => 2
    case Create(_, _) => 2
    case ChangePassword(_, _, _) => 2
    case Recover(_, _) => 2
    case Finished(_) => 0
    case _ => 1
  }

  ghost function Alone(db: DB, call: Call, now: int, commits: bool): (DB, Outcome)
    decreases Ahead(call)
  {
    if call.Finished? then (db, call.result)
    else if Commits(call) then Commit(db, call, now, commits)
    else Alone(db, Read(db, call), now, commits)
  }

  // One query after another, on a database nobody else changes.
  lemma NextRead(db: DB, call: Call, now: int, commits: bool)
    requires !Commits(call) && !call.Finished?
    ensures Alone(db, call, now, commits) == Alone(db, Read(db, call), now, commits)
  {}

  lemma LastCommit(db: DB, call: Call, now: int, commits: bool)
    requires Commits(call)
    ensures Alone(db, call, now, commits) == Commit(db, call, now, commits)
  {}

  lemma UpdateAlone(db: DB, actor: string, user: User, expected: int, origin: Origin, now: int, commits: bool)
    ensures Alone(db, Call.Update(actor, user, expected, origin), now, commits) ==
            if !EnabledAdmin(db.users, actor) then (db, Failure(Forbidden))
            else if user.id !in db.users then (db, Success(None))
            else if StepsDown(db.users[user.id], user) && |Admins(db.users)| <= 1 then (db, Failure(LastAdministrator))
            else Commit(db, UpdateCommit(actor, user, expected, origin, db.users[user.id]), now, commits)
  {
    NextRead(db, Call.Update(actor, user, expected, origin), now, commits);
    NextRead(db, UpdateRead(actor, user, expected, origin), now, commits);
    if user.id in db.users {
      NextRead(db, UpdateCount(actor, user, expected, origin, db.users[user.id]), now, commits);
      LastCommit(db, UpdateCommit(actor, user, expected, origin, db.users[user.id]), now, commits);
    }
  }

  // ---------------------------------------------------------------- what each call comes to

  // Whether a call that stores `user` over the row `current` may, and what it is when it does.
  ghost predicate Stores(db: DB, after: DB, r: Outcome, actor: string, current: User, user: User, commits: bool,
                         now: int) {
    && (Succeeds(r) <==>
        && ValidUser(user) && NameIsFree(db.users, user.id, user.username) && commits
        && HasAdministrator(db.users[user.id := user]))
    && (if Succeeds(r) then
          && r.value.value == user.(createdAt := current.createdAt, updatedAt := r.value.value.updatedAt)
          && FirstAfter(r.value.value.updatedAt, now, current.updatedAt)
          && Replaces(db, after, r.value.value, UserAudit(actor, "admin", ActionOf(current, user), user.id),
                      Invalidates(current, user))
        else after == db)
  }

  lemma UpdateComesTo(db: DB, actor: string, user: User, expected: int, origin: Origin, now: int, commits: bool)
    requires EnabledAdmin(db.users, actor)
    ensures var (after, r) := Alone(db, Call.Update(actor, user, expected, origin), now, commits);
            && (r == Success(None) <==> user.id !in db.users)
            && (r == Failure(LastAdministrator) <==>
                user.id in db.users && !HasAdministrator(db.users[user.id := user]))
            && (user.id in db.users && db.users[user.id].updatedAt == expected ==>
                  Stores(db, after, r, actor, db.users[user.id], user, commits, now))
            && (user.id in db.users && db.users[user.id].updatedAt != expected ==> after == db && r.Failure?)
            && (!Succeeds(r) ==> after == db) && r != Failure(Forbidden) && r != Failure(MtimeRequired)
  {
    UpdateAlone(db, actor, user, expected, origin, now, commits);
    if user.id in db.users {
      var current := db.users[user.id];
      if StepsDown(current, user) {
        AdministratorsLeft(db.users, user);
      } else {
        assert HasAdministrator(db.users[user.id := user]) by {
          assert EnabledAdmin(db.users[user.id := user], actor);
        }
      }
      var audit := UserAudit(actor, "admin", ActionOf(current, user), user.id);
      UpdateIff(db, user, expected, Invalidates(current, user), audit, now, commits);
      UpdateRefusal(db, user, expected, Invalidates(current, user), audit, now, commits);
      IdIsNotBlank(user);
    }
  }

  lemma IdIsNotBlank(user: User)
    ensures ValidUser(user) ==> user.id != ""
  {
    assert TrimSpace("") == "";
  }

  predicate MayNot(users: map<string, User>, actor: string) {
    actor in users ==> !users[actor].enabled || users[actor].access != "admin"
  }

  lemma EditAlone(db: DB, actor: string, target: string, input: UserEdit, mtime: int, now: int, commits: bool)
    ensures Alone(db, Call.Edit(actor, target, input, mtime), now, commits) ==
            if !EnabledAdmin(db.users, actor) then (db, Failure(Forbidden))
            else if mtime == 0 then (db, Failure(MtimeRequired))
            else if target !in db.users then (db, Success(None))
            else
              var row := db.users[target];
              Alone(db, Call.Update(actor, Edited(row, input), mtime, FromEdit(row, input)), now, commits)
  {
    NextRead(db, Call.Edit(actor, target, input, mtime), now, commits);
    if EnabledAdmin(db.users, actor) && mtime != 0 {
      NextRead(db, EditRead(actor, target, input, mtime), now, commits);
    }
  }

  /** An edit running alone is for enabled administrators, needs an mtime and a user, leaves an administrator, and then
      is stored exactly when the mtime is the row's, the name is free and the edited record is valid. */
  lemma EditComesTo(db: DB, actor: string, target: string, input: UserEdit, mtime: int, now: int, commits: bool)
    returns (after: DB, r: Outcome)
    requires SoundUsers(db.users)
    ensures (after, r) == Alone(db, Call.Edit(actor, target, input, mtime), now, commits)
    ensures r == Failure(Forbidden) <==> MayNot(db.users, actor)
    ensures r == Failure(MtimeRequired) <==> !MayNot(db.users, actor) && mtime == 0
    ensures r == Success(None) <==> !MayNot(db.users, actor) && mtime != 0 && target !in db.users
    ensures !MayNot(db.users, actor) && mtime != 0 && target in db.users ==>
              if db.users[target].updatedAt == mtime then
                Stores(db, after, r, actor, db.users[target], Edited(db.users[target], input), commits, now)
              else r.Failure?
    ensures !Succeeds(r) ==> after == db
  {
    EditAlone(db, actor, target, input, mtime, now, commits);
    var alone := Alone(db, Call.Edit(actor, target, input, mtime), now, commits);
    after, r := alone.0, alone.1;
    if EnabledAdmin(db.users, actor) && mtime != 0 && target in db.users {
      var row := db.users[target];
      UpdateComesTo(db, actor, Edited(row, input), mtime, FromEdit(row, input), now, commits);
    }
  }

  lemma ResetAlone(db: DB, actor: string, target: string, hash: string, now: int, commits: bool)
    ensures Alone(db, Reset(actor, target, hash), now, commits) ==
            if !EnabledAdmin(db.users, actor) then (db, Failure(Forbidden))
            else if target !in db.users then (db, Success(None))
            else
              var row := db.users[target];
              Alone(db, Call.Update(actor, row.(passwordHash := hash), row.updatedAt, FromReset(row, hash)), now,
                    commits)
  {
    NextRead(db, Reset(actor, target, hash), now, commits);
    if EnabledAdmin(db.users, actor) {
      NextRead(db, ResetRead(actor, target, hash), now, commits);
    }
  }

  /** A reset running alone stores the new hash in the row it finds, and revokes every proof of the user's if the hash
      is another. */
  lemma ResetComesTo(db: DB, actor: string, target: string, hash: string, now: int, commits: bool)
    returns (after: DB, r: Outcome)
    requires SoundUsers(db.users)
    ensures (after, r) == Alone(db, Reset(actor, target, hash), now, commits)
    ensures r == Failure(Forbidden) <==> MayNot(db.users, actor)
    ensures r == Success(None) <==> !MayNot(db.users, actor) && target !in db.users
    ensures Succeeds(r) <==> !MayNot(db.users, actor) && target in db.users && hash != "" && commits
    ensures if Succeeds(r) then
              var row := db.users[target];
              && OnlyRekeys(row, r.value.value) && r.value.value.passwordHash == hash
              && Replaces(db, after, r.value.value,
                          UserAudit(actor, "admin", ActionOf(row, row.(passwordHash := hash)), target),
                          hash != row.passwordHash)
            else after == db
  {
    ResetAlone(db, actor, target, hash, now, commits);
    var alone := Alone(db, Reset(actor, target, hash), now, commits);
    after, r := alone.0, alone.1;
    if EnabledAdmin(db.users, actor) && target in db.users {
      var row := db.users[target];
      UpdateComesTo(db, actor, row.(passwordHash := hash), row.updatedAt, FromReset(row, hash), now, commits);
      OwnNameIsFree(db.users, target);
      assert EnabledAdmin(db.users[target := row.(passwordHash := hash)], actor);
    }
  }

  /** A creation running alone is for enabled administrators. */
  lemma CreationComesTo(db: DB, actor: string, user: User, now: int, commits: bool) returns (after: DB, r: Outcome)
    ensures (after, r) == Alone(db, Create(actor, user), now, commits)
    ensures r == Failure(Forbidden) <==> MayNot(db.users, actor)
    ensures Succeeds(r) <==>
            && !MayNot(db.users, actor) && ValidUser(user) && user.id !in db.users
            && NameIsFree(db.users, user.id, user.username) && commits
    ensures if Succeeds(r) then
              Replaces(db, after, user.(createdAt := now, updatedAt := now),
                       Audit(actor, "admin", "user.created", "user", user.id, "success", 0), false)
            else after == db
  {
    var alone := Alone(db, Create(actor, user), now, commits);
    after, r := alone.0, alone.1;
    NextRead(db, Create(actor, user), now, commits);
    if EnabledAdmin(db.users, actor) {
      LastCommit(db, CreateCommit(actor, user), now, commits);
      CreationIff(db, user, UserAudit(actor, "admin", "user.created", user.id), now, commits);
      IdIsNotBlank(user);
    }
  }

  /** A password change running alone succeeds exactly for an enabled user whose current password verifies. */
  lemma ChangeComesTo(db: DB, id: string, verifies: string -> bool, hash: string, now: int, commits: bool)
    returns (after: DB, r: Outcome)
    requires SoundUsers(db.users)
    ensures (after, r) == Alone(db, ChangePassword(id, verifies, hash), now, commits)
    ensures r == Failure(InvalidCredentials) <==>
            id in db.users ==> !db.users[id].enabled || !verifies(db.users[id].passwordHash)
    ensures Succeeds(r) <==> r != Failure(InvalidCredentials) && hash != "" && commits
    ensures if Succeeds(r) then
              && OnlyRekeys(db.users[id], r.value.value) && r.value.value.passwordHash == hash
              && Replaces(db, after, r.value.value,
                          Audit(id, "user", "user.password_changed", "user", id, "success", 0), true)
            else after == db
  {
    var alone := Alone(db, ChangePassword(id, verifies, hash), now, commits);
    after, r := alone.0, alone.1;
    NextRead(db, ChangePassword(id, verifies, hash), now, commits);
    if id in db.users && db.users[id].enabled && verifies(db.users[id].passwordHash) {
      var row := db.users[id];
      LastCommit(db, ChangeCommit(row, verifies, hash), now, commits);
      RekeyingIff(db, id, row.updatedAt, hash, UserAudit(id, "user", "user.password_changed", id), now, commits);
      IdIsNotBlank(row);
    }
  }

  lemma RecoverReads(db: DB, id: string, hash: string) returns (next: Call)
    requires SoundUsers(db.users) && id in db.users
    ensures next == Read(db, Recover(db.users[id].username, hash))
    ensures next == if db.users[id].access == "admin" then RecoverCommit(db.users[id], hash)
                    else Finished(Failure(NoAdministrator))
  {
    UserIsNamed(db, id);
    next := Read(db, Recover(db.users[id].username, hash));
  }

  lemma RecoverAlone(db: DB, id: string, hash: string, now: int, commits: bool)
    requires SoundUsers(db.users) && id in db.users
    ensures Alone(db, Recover(db.users[id].username, hash), now, commits) ==
            if db.users[id].access == "admin" then Commit(db, RecoverCommit(db.users[id], hash), now, commits)
            else (db, Failure(NoAdministrator))
  {
    var next := RecoverReads(db, id, hash);
    NextRead(db, Recover(db.users[id].username, hash), now, commits);
    if Commits(next) {
      LastCommit(db, next, now, commits);
    }
  }

  /** A recovery running alone succeeds exactly for the name of an administrator, enabled or not. */
  lemma RecoveryComesTo(db: DB, id: string, hash: string, now: int, commits: bool) returns (after: DB, r: Outcome)
    requires SoundUsers(db.users) && id in db.users
    ensures (after, r) == Alone(db, Recover(db.users[id].username, hash), now, commits)
    ensures r == Failure(NoAdministrator) <==> db.users[id].access != "admin"
    ensures Succeeds(r) <==> db.users[id].access == "admin" && hash != "" && commits
    ensures if Succeeds(r) then
              && OnlyRekeys(db.users[id], r.value.value) && r.value.value.passwordHash == hash
              && Replaces(db, after, r.value.value,
                          Audit("", "system", "user.password_recovered", "user", id, "success", 0), true)
            else after == db
  {
    var row := db.users[id];
    RecoverAlone(db, id, hash, now, commits);
    var alone := Alone(db, Recover(row.username, hash), now, commits);
    after, r := alone.0, alone.1;
    if row.access == "admin" {
      RekeyingIff(db, id, row.updatedAt, hash, UserAudit("", "system", "user.password_recovered", id), now, commits);
      IdIsNotBlank(row);
    }
  }

  lemma UnknownIsNotRecovered(db: DB, username: string, hash: string, now: int, commits: bool)
    requires forall id :: id in db.users ==> db.users[id].username != username
    ensures Alone(db, Recover(username, hash), now, commits) == (db, Failure(NoAdministrator))
  {
    NextRead(db, Recover(username, hash), now, commits);
  }

  /** An edit can make of one row any other user's fields, and an empty one changes nothing. */
  lemma EditsReachEverything(a: User, b: User)
    requires TrimSpace(b.username) == b.username && TrimSpace(b.displayName) == b.displayName
             && TrimSpace(b.email) == b.email
    ensures Edited(a,
                   UserEdit(Some(b.username), Some(b.displayName), Some(b.email), Some(b.access), Some(b.enabled))) ==
            a.(username := b.username, displayName := b.displayName, email := b.email, access := b.access,
               enabled := b.enabled)
    ensures Edited(a, UserEdit(None, None, None, None, None)) == a
  {}

  /** An update leaves proofs of identity alone exactly when it only touches the display name, the e-mail address and
      the times, or enables; and it is named after the gravest thing it does. */
  lemma LeavesProofsIff(current: User, user: User)
    requires current.id == user.id
    ensures !Invalidates(current, user) <==>
            && user == current.(displayName := user.displayName, email := user.email, enabled := user.enabled,
                                createdAt := user.createdAt, updatedAt := user.updatedAt)
            && (user.enabled || !current.enabled)
    ensures var action := ActionOf(current, user);
            && (action == "user.disabled" <==> current.enabled && !user.enabled)
            && (action == "user.updated" ==> current.access == user.access && current.passwordHash == user.passwordHash)
            && (action == "user.access_changed" ==> current.access != user.access)
            && (action == "user.password_reset" ==> current.passwordHash != user.passwordHash)
            && (current.access != user.access ==> action in {"user.disabled", "user.access_changed"})
            && (current.passwordHash != user.passwordHash ==> action != "user.updated")
  {}

  class AdminAccountService {
    const repo: SQLiteRepository

    constructor (repo: SQLiteRepository)
      ensures this.repo == repo
    {
      this.repo := repo;
    }

    method Authorize(actor: string) returns (allowed: bool)
      ensures allowed <==> EnabledAdmin(repo.db.users, actor)
    {
      var found := UserByID(repo.db, actor);
      allowed := found.Some? && found.value.enabled && found.value.access == "admin";
    }

    method EnabledAdmins() returns (count: nat)
      requires forall id :: id in repo.db.users ==> repo.db.users[id].id == id
      ensures count == |Admins(repo.db.users)|
    {
      var users := repo.ListUsers();
      count := 0;
      ghost var counted: set<string> := {};
      for i := 0 to |users|
        invariant counted == set row | row in users[..i] && Administers(row) :: row.id
        invariant count == |counted|
      {
        assert users[..i + 1] == users[..i] + [users[i]];
        if users[i].enabled && users[i].access == "admin" {
          assert users[i].id !in counted;
          counted := counted + {users[i].id};
          count := count + 1;
        }
      }
      assert users[..|users|] == users;
      assert counted == Admins(repo.db.users) by {
        forall id | id in Admins(repo.db.users) ensures id in counted {
          assert repo.db.users[id] in users;
        }
      }
    }

    method Judge(current: User, user: User) returns (invalidate: bool, action: string)
      ensures invalidate <==> Invalidates(current, user)
      ensures action == ActionOf(current, user)
    {
      invalidate := current.passwordHash != user.passwordHash || current.username != user.username
                        || current.access != user.access || (current.enabled && !user.enabled);
      action := "user.updated";
      if current.enabled && !user.enabled {
        action := "user.disabled";
      } else if current.access != user.access {
        action := "user.access_changed";
      } else if current.passwordHash != user.passwordHash {
        action := "user.password_reset";
      }
    }

    method Update(actor: string, user: User, expected: int, ghost origin: Origin, now: int, commits: bool)
      returns (r: Outcome)
      requires SoundUsers(repo.db.users)
      modifies repo
      ensures (repo.db, r) == Alone(old(repo.db), Call.Update(actor, user, expected, origin), now, commits)
    {
      UpdateAlone(repo.db, actor, user, expected, origin, now, commits);
      var allowed := Authorize(actor);
      if !allowed { return Failure(Forbidden); }
      var found := UserByID(repo.db, user.id);
      if found == None { return Success(None); }
      var current := found.value;
      if current.enabled && current.access == "admin" && (!user.enabled || user.access != "admin") {
        var admins := EnabledAdmins();
        if admins <= 1 { return Failure(LastAdministrator); }
      }
      var invalidate, action := Judge(current, user);
      r := repo.UpdateUserSecurity(user, expected, invalidate, UserAudit(actor, "admin", action, user.id), now,
                                   commits);
    }

    method Edit(actor: string, target: string, input: UserEdit, mtime: int, now: int, commits: bool)
      returns (r: Outcome)
      requires SoundUsers(repo.db.users)
      modifies repo
      ensures (repo.db, r) == Alone(old(repo.db), Call.Edit(actor, target, input, mtime), now, commits)
    {
      NextRead(repo.db, Call.Edit(actor, target, input, mtime), now, commits);
      NextRead(repo.db, EditRead(actor, target, input, mtime), now, commits);
      var allowed := Authorize(actor);
      if !allowed { return Failure(Forbidden); }
      if mtime == 0 { return Failure(MtimeRequired); }
      var found := UserByID(repo.db, target);
      if found == None { return Success(None); }
      var user := found.value;
      if input.username.Some? { user := user.(username := TrimSpace(input.username.value)); }
      if input.displayName.Some? { user := user.(displayName := TrimSpace(input.displayName.value)); }
      if input.email.Some? { user := user.(email := TrimSpace(input.email.value)); }
      if input.access.Some? { user := user.(access := input.access.value); }
      if input.enabled.Some? { user := user.(enabled := input.enabled.value); }
      r := Update(actor, user, mtime, FromEdit(found.value, input), now, commits);
    }

    method ResetPassword(actor: string, target: string, hash: string, now: int, commits: bool) returns (r: Outcome)
      requires SoundUsers(repo.db.users)
      modifies repo
      ensures (repo.db, r) == Alone(old(repo.db), Reset(actor, target, hash), now, commits)
    {
      NextRead(repo.db, Reset(actor, target, hash), now, commits);
      NextRead(repo.db, ResetRead(actor, target, hash), now, commits);
      var allowed := Authorize(actor);
      if !allowed { return Failure(Forbidden); }
      var found := UserByID(repo.db, target);
      if found == None { return Success(None); }
      var user := found.value.(passwordHash := hash);
      r := Update(actor, user, user.updatedAt, FromReset(found.value, hash), now, commits);
    }
  }
}
