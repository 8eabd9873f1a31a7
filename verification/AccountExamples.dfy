// Runs of account calls in which an administrator's edit sends a guessed mtime.

module AccountExamples {
  import opened Text
  import opened Identity
  import opened Tokens
  import opened Accounts
  import opened AccountRuns

  const ROOT := User("r", "root", "h", "", "old", "admin", true, 1, 1)
  const USER := User("u", "user", "h", "", "", "user", true, 1, 1)
  const PROMOTED := USER.(access := "admin", updatedAt := 2)

  const NAMES := UserEdit(None, Some("n"), None, None, None)
  const MAILS := UserEdit(None, None, Some("new"), None, None)
  const PROMOTES := UserEdit(None, None, None, Some("admin"), None)
  const DEMOTES := UserEdit(None, None, None, Some("user"), None)

  lemma PlainTextIsTrimmed()
    ensures TrimSpace("r") == "r" && TrimSpace("root") == "root" && TrimSpace("u") == "u" && TrimSpace("user") == "user"
    ensures TrimSpace("n") == "n" && TrimSpace("new") == "new"
  {
    TrimBare("r", IsSpace);
    TrimBare("root", IsSpace);
    TrimBare("u", IsSpace);
    TrimBare("user", IsSpace);
    TrimBare("n", IsSpace);
    TrimBare("new", IsSpace);
  }

  // ---------------------------------------------------------------- building a run

  lemma {:induction false} RunsJoin(a: System, xs: seq<Action>, b: System, ys: seq<Action>, c: System)
    requires Executes(a, xs, b) && Executes(b, ys, c)
    ensures Executes(a, xs + ys, c)
    decreases |xs|
  {
    if xs == [] {
      assert xs + ys == ys;
    } else {
      RunsJoin(Apply(a, xs[0]), xs[1..], b, ys, c);
      assert (xs + ys)[0] == xs[0] && (xs + ys)[1..] == xs[1..] + ys;
    }
  }

  lemma ThenStep(a: System, xs: seq<Action>, b: System, action: Action)
    requires Executes(a, xs, b) && Enabled(b, action)
    ensures Executes(a, xs + [action], Apply(b, action))
  {
    assert [action][1..] == [];
    assert Executes(b, [action], Apply(b, action));
    RunsJoin(a, xs, b, [action], Apply(b, action));
  }

  function At(sys: System, slot: nat, call: Call): System { sys.(calls := sys.calls[slot := call]) }

  // A read moves a call and nothing else.
  lemma ThenRead(a: System, xs: seq<Action>, sys: System, slot: nat, call: Call)
    requires Executes(a, xs, At(sys, slot, call)) && !Commits(call)
    ensures Executes(a, xs + [Continue(slot, 1, true)], At(sys, slot, Read(sys.db, call)))
  {
    ThenStep(a, xs, At(sys, slot, call), Continue(slot, 1, true));
    assert Apply(At(sys, slot, call), Continue(slot, 1, true)) == At(sys, slot, Read(sys.db, call));
  }

  lemma ThenBegin(a: System, xs: seq<Action>, sys: System, slot: nat, call: Call)
    requires Executes(a, xs, sys) && slot !in sys.calls && Initial(call)
    ensures Executes(a, xs + [Begin(slot, call)], At(sys, slot, call))
  {
    ThenStep(a, xs, sys, Begin(slot, call));
  }

  // The commit an edit of `row` comes to when nothing is interleaved with its reads.
  function Prepared(target: string, edit: UserEdit, mtime: int, row: User): Call {
    UpdateCommit("r", Edited(row, edit), mtime, FromEdit(row, edit), row)
  }

  lemma ThenEdit(a: System, xs: seq<Action>, sys: System, slot: nat, target: string, edit: UserEdit, mtime: int)
    returns (ys: seq<Action>)
    requires Executes(a, xs, sys) && slot !in sys.calls && mtime != 0
    requires EnabledAdmin(sys.db.users, "r") && target in sys.db.users && sys.db.users[target].id == target
    requires !StepsDown(sys.db.users[target], Edited(sys.db.users[target], edit))
    ensures Executes(a, ys, At(sys, slot, Prepared(target, edit, mtime, sys.db.users[target])))
  {
    var row := sys.db.users[target];
    var made, origin := Edited(row, edit), FromEdit(row, edit);
    ThenBegin(a, xs, sys, slot, Edit("r", target, edit, mtime));
    ys := xs + [Begin(slot, Edit("r", target, edit, mtime))];
    ThenRead(a, ys, sys, slot, Edit("r", target, edit, mtime));
    ys := ys + [Continue(slot, 1, true)];
    ThenRead(a, ys, sys, slot, EditRead("r", target, edit, mtime));
    ys := ys + [Continue(slot, 1, true)];
    ThenRead(a, ys, sys, slot, Update("r", made, mtime, origin));
    ys := ys + [Continue(slot, 1, true)];
    ThenRead(a, ys, sys, slot, UpdateRead("r", made, mtime, origin));
    ys := ys + [Continue(slot, 1, true)];
  }

  // What the prepared commit of an edit made from `read` does to the row that is there by then.
  lemma PreparedStores(db: DB, target: string, edit: UserEdit, mtime: int, read: User, now: int)
    requires EnabledAdmin(db.users, "r") && target in db.users && db.users[target].updatedAt == mtime < now
    requires read.id == target && ValidUser(Edited(read, edit))
             && !NameTaken(db.users, target, Edited(read, edit).username)
    requires StepsDown(db.users[target], Edited(read, edit)) ==> |Admins(db.users)| > 1
    ensures var (after, r) := Commit(db, Prepared(target, edit, mtime, read), now, true);
            && Succeeds(r)
            && after.users ==
               db.users[target := Edited(read, edit).(createdAt := db.users[target].createdAt, updatedAt := now)]
            && (!Invalidates(read, Edited(read, edit)) ==> after.tokens == db.tokens && after.sessions == db.sessions)
            && (db.tokens == map[] && db.sessions == map[] ==> after.tokens == map[] && after.sessions == map[])
  {
    assert RevokedTokens(map[], target, now) == map[] && RevokedSessions(map[], target, now) == map[];
  }

  lemma ThenCommit(a: System, xs: seq<Action>, sys: System, slot: nat, call: Call, now: int)
    requires Executes(a, xs, At(sys, slot, call)) && Commits(call) && now > 0
    ensures var (after, r) := Commit(sys.db, call, now, true);
            Executes(a, xs + [Continue(slot, now, true)], At(sys.(db := after), slot, Finished(r)))
  {
    ThenStep(a, xs, At(sys, slot, call), Continue(slot, now, true));
    var (after, r) := Commit(sys.db, call, now, true);
    assert Apply(At(sys, slot, call), Continue(slot, now, true)) == At(sys.(db := after), slot, Finished(r));
  }

  // A database whose proofs of identity do not matter yet.
  predicate Holds(db: DB, users: map<string, User>) { db.users == users && db.tokens == map[] && db.sessions == map[] }

  lemma Boots() returns (xs: seq<Action>, sys: System)
    ensures Executes(EMPTY, xs, sys) && Holds(sys.db, map["r" := ROOT]) && sys.calls == map[]
  {
    PlainTextIsTrimmed();
    xs := [] + [Bootstrap(ROOT, 1, true)];
    ThenStep(EMPTY, [], EMPTY, Bootstrap(ROOT, 1, true));
    sys := Apply(EMPTY, Bootstrap(ROOT, 1, true));
  }

  /** While the call in slot 1 waits with the row it read at mtime 1 and a guess of 2, the call in slot 2 commits at
      2. */
  lemma Overtakes(xs: seq<Action>, sys: System, target: string, guess: UserEdit, other: UserEdit)
    returns (ys: seq<Action>, end: System)
    requires Executes(EMPTY, xs, sys) && 1 !in sys.calls && 2 !in sys.calls && sys.db.tokens == map[]
             && sys.db.sessions == map[]
    requires EnabledAdmin(sys.db.users, "r") && target in sys.db.users
    requires sys.db.users[target].id == target && sys.db.users[target].updatedAt == 1
    requires var row := sys.db.users[target];
             && !StepsDown(row, Edited(row, guess)) && !StepsDown(row, Edited(row, other))
                && ValidUser(Edited(row, other))
             && !NameTaken(sys.db.users, target, Edited(row, other).username)
    ensures Executes(EMPTY, ys, end) && 1 in end.calls
    ensures var row := sys.db.users[target];
            && end.calls[1] == Prepared(target, guess, 2, row)
            && Holds(end.db, sys.db.users[target := Edited(row, other).(createdAt := row.createdAt, updatedAt := 2)])
  {
    var row := sys.db.users[target];
    var waiting := At(sys, 1, Prepared(target, guess, 2, row));
    ys := ThenEdit(EMPTY, xs, sys, 1, target, guess, 2);
    ys := ThenEdit(EMPTY, ys, waiting, 2, target, other, 1);
    ThenCommit(EMPTY, ys, waiting, 2, Prepared(target, other, 1, row), 2);
    PreparedStores(sys.db, target, other, 1, row, 2);
    var (after, r) := Commit(sys.db, Prepared(target, other, 1, row), 2, true);
    ys, end := ys + [Continue(2, 2, true)], At(waiting.(db := after), 2, Finished(r));
  }

  /** A lost update: the caller of slot 1 guesses the next mtime and reads the row at 1; another edit changes the
      e-mail address at 2; the first then commits its copy, and the old address is back. */
  lemma GuessedMtimeLosesAnUpdate() returns (actions: seq<Action>, sys: System)
    ensures Executes(EMPTY, actions, sys) && 1 in sys.calls && sys.calls[1] == Prepared("r", NAMES, 2, ROOT)
    ensures "r" in sys.db.users && sys.db.users["r"].email == "new"
    ensures var (after, r) := Commit(sys.db, sys.calls[1], 3, true);
            Succeeds(r) && "r" in after.users && after.users["r"].email == "old"
  {
    var xs, base := Boots();
    PlainTextIsTrimmed();
    actions, sys := Overtakes(xs, base, "r", NAMES, MAILS);
    PreparedStores(sys.db, "r", NAMES, 2, ROOT, 3);
  }

  /** A guess that loses nothing: the edit in between named the same field, so the rows differ on no other. */
  lemma GuessedMtimeMayLoseNothing() returns (actions: seq<Action>, sys: System)
    ensures Executes(EMPTY, actions, sys) && 1 in sys.calls && sys.calls[1] == Prepared("r", NAMES, 2, ROOT)
    ensures sys.calls[1].expected > sys.calls[1].origin.seen.updatedAt && "r" in sys.db.users
    ensures var (after, r) := Commit(sys.db, sys.calls[1], 3, true);
            Succeeds(r) && OnlyApplies(sys.calls[1], sys.db.users["r"], r.value.value)
  {
    var xs, base := Boots();
    PlainTextIsTrimmed();
    actions, sys := Overtakes(xs, base, "r", NAMES, NAMES);
    PreparedStores(sys.db, "r", NAMES, 2, ROOT, 3);
  }

  // ---------------------------------------------------------------- an unnoticed change

  lemma CreationStores(db: DB)
    requires Holds(db, map["r" := ROOT])
    ensures var (after, r) := Commit(db, CreateCommit("r", USER), 1, true);
            Holds(after, map["r" := ROOT, "u" := USER])
  {
    PlainTextIsTrimmed();
  }

  lemma ThenCreate(a: System, xs: seq<Action>, sys: System, slot: nat, user: User) returns (ys: seq<Action>)
    requires Executes(a, xs, sys) && slot !in sys.calls && EnabledAdmin(sys.db.users, "r")
    ensures Executes(a, ys, At(sys, slot, CreateCommit("r", user)))
  {
    ThenBegin(a, xs, sys, slot, Create("r", user));
    ys := xs + [Begin(slot, Create("r", user))];
    ThenRead(a, ys, sys, slot, Create("r", user));
    ys := ys + [Continue(slot, 1, true)];
  }

  lemma Creates() returns (xs: seq<Action>, sys: System)
    ensures Executes(EMPTY, xs, sys) && Holds(sys.db, map["r" := ROOT, "u" := USER])
    ensures 1 !in sys.calls && 2 !in sys.calls
  {
    var base: System;
    xs, base := Boots();
    CreationStores(base.db);
    xs := ThenCreate(EMPTY, xs, base, 0, USER);
    ThenCommit(EMPTY, xs, base, 0, CreateCommit("r", USER), 1);
    var (after, r) := Commit(base.db, CreateCommit("r", USER), 1, true);
    xs := xs + [Continue(0, 1, true)];
    sys := At(base.(db := after), 0, Finished(r));
  }

  const HASH: string := seq(32, (i: int) => 'x')
  const ISSUES := IssueToken("t", "u", "", 9, HASH, 2, true)

  lemma TwoAdministrators(users: map<string, User>)
    requires users == map["r" := ROOT, "u" := PROMOTED]
    ensures |Admins(users)| > 1
  {
    assert Admins(users) == {"r", "u"};
  }

  lemma TokenIsIssued(sys: System)
    requires Holds(sys.db, map["r" := ROOT, "u" := PROMOTED])
    ensures Enabled(sys, ISSUES)
    ensures var after := Apply(sys, ISSUES);
            && after.calls == sys.calls && after.db.users == sys.db.users && after.db.sessions == map[]
            && after.db.tokens == map["t" := Token("t", "u", TrimSpace(""), HASH, 2, 11, 0)]
  {}

  lemma DemotionStores(db: DB)
    requires db.users == map["r" := ROOT, "u" := PROMOTED]
    ensures var (after, r) := Commit(db, Prepared("u", DEMOTES, 2, USER), 3, true);
            && Succeeds(r) && after.users == db.users["u" := USER.(updatedAt := 3)]
            && after.tokens == db.tokens && after.sessions == db.sessions
  {
    PlainTextIsTrimmed();
    TwoAdministrators(db.users);
    PreparedStores(db, "u", DEMOTES, 2, USER, 3);
  }

  /** A change that revokes nothing: the caller of slot 1 means to keep a user's access at "user", guesses the next
      mtime and reads the row at 1; another edit makes the user an administrator at 2, and a token is issued; the
      first edit then takes the access away again, having compared with the row it read, and the token stays good. */
  lemma UnnoticedDemotion() returns (actions: seq<Action>, sys: System)
    ensures Executes(EMPTY, actions, sys) && Changes(sys, Continue(1, 3, true), "u")
            && !Noticed(sys, Continue(1, 3, true), "u")
    ensures var after := Apply(sys, Continue(1, 3, true)).db;
            && sys.db.users["u"].access == "admin" && "u" in after.users && after.users["u"].access == "user"
            && HasHash(sys.db, HASH, "t") && sys.db.tokens["t"].userID == "u" && sys.db.tokens["t"].revokedAt == 0
            && HasHash(after, HASH, "t") && after.tokens["t"].revokedAt == 0 && !ProofsRevoked(sys.db, after, "u")
  {
    var xs, base := Creates();
    PlainTextIsTrimmed();
    var before: System;
    xs, before := Overtakes(xs, base, "u", DEMOTES, PROMOTES);
    TokenIsIssued(before);
    ThenStep(EMPTY, xs, before, ISSUES);
    actions, sys := xs + [ISSUES], Apply(before, ISSUES);
    DemotionStores(sys.db);
  }
}
