// Stored registry credentials: internal/auth/secrets.go, their table in internal/metadata/sqlite_security.go
// and the key rotation of cmd/regstair/main.go.
//
// The cipher is ideal: a box opens under the key, nonce and associated data that sealed it, and no others.

module Secrets {
  import opened Text
  import opened Identity

  type Bytes = seq<bv8>

  datatype SecretError = KeyRejected | RandomFailed | Unavailable | BadAudit | BadRecord | SetChanged | Incomplete
                       | NotCommitted

  datatype Owner = Owner(record: string, user: string, source: string)

  datatype Box = Box(key: Bytes, nonce: Bytes, owner: Owner, plaintext: Bytes) | Noise(bytes: Bytes)

  // What a stored text decodes to; an undecodable base64 field is None.
  datatype Envelope = Envelope(version: int, algorithm: string, keyID: string, nonce: Option<Bytes>, box: Option<Box>)
                    | Malformed(text: string)

  datatype Keyring = Keyring(active: string, keys: map<string, Bytes>)

  const KEY_SIZE := 32
  const NONCE_SIZE := 12
  const ALGORITHM := "AES-256-GCM"

  predicate Usable(ring: Keyring) {
    && ring.active != "" && ring.active in ring.keys
    && forall id | id in ring.keys :: id != "" && |ring.keys[id]| == KEY_SIZE
  }

  function NewKeyring(active: string, keys: map<string, Bytes>): Result<Keyring, SecretError> {
    if Usable(Keyring(active, keys)) then Success(Keyring(active, keys)) else Failure(KeyRejected)
  }

  function Encrypt(ring: Keyring, owner: Owner, plaintext: Bytes, nonce: Option<Bytes>): Result<Envelope, SecretError>
    requires Usable(ring)
  {
    if nonce == None || |nonce.value| != NONCE_SIZE then Failure(RandomFailed)
    else Success(Envelope(1, ALGORITHM, ring.active, nonce,
                          Some(Box(ring.keys[ring.active], nonce.value, owner, plaintext))))
  }

  function OpenBox(key: Bytes, nonce: Bytes, owner: Owner, box: Box): Result<Bytes, SecretError> {
    if box.Box? && box.key == key && box.nonce == nonce
      && box.owner == owner then Success(box.plaintext) else Failure(Unavailable)
  }

  function Decrypt(ring: Keyring, owner: Owner, secret: Envelope): Result<Bytes, SecretError> {
    match secret
    case Malformed(_) => Failure(Unavailable)
    case Envelope(version, algorithm, keyID, nonce, box) =>
      if version != 1 || algorithm != ALGORITHM || keyID !in ring.keys then Failure(Unavailable)
      else if nonce == None || |nonce.value| != NONCE_SIZE || box == None then Failure(Unavailable)
      else OpenBox(ring.keys[keyID], nonce.value, owner, box.value)
  }

  function Reencrypt(ring: Keyring, owner: Owner, secret: Envelope, nonce: Option<Bytes>): Result<Envelope, SecretError>
    requires Usable(ring)
  {
    match Decrypt(ring, owner, secret)
    case Failure(e) => Failure(e)
    case Success(plaintext) => Encrypt(ring, owner, plaintext, nonce)
  }

  /** What was encrypted decrypts, and does so exactly for its owner and with its key under its id. */
  lemma DecryptsIff(ring: Keyring, owner: Owner, plaintext: Bytes, nonce: Option<Bytes>, reader: Keyring,
                    reading: Owner)
    requires Usable(ring) && Encrypt(ring, owner, plaintext, nonce).Success?
    ensures Decrypt(reader, reading, Encrypt(ring, owner, plaintext, nonce).value) ==
            if reading == owner && ring.active in reader.keys && reader.keys[ring.active] == ring.keys[ring.active]
            then Success(plaintext) else Failure(Unavailable)
  {}

  /** A secret decrypts exactly if it is a version 1 envelope of the algorithm, naming a key of the ring, whose box that
      key sealed for the owner under the nonce beside it. */
  lemma DecryptIff(ring: Keyring, owner: Owner, secret: Envelope, plaintext: Bytes)
    ensures Decrypt(ring, owner, secret) == Success(plaintext) <==>
            && secret.Envelope? && secret.keyID in ring.keys
            && exists nonce: Bytes ::
                 |nonce| == 12
                 && secret == Envelope(1, "AES-256-GCM", secret.keyID, Some(nonce),
                                       Some(Box(ring.keys[secret.keyID], nonce, owner, plaintext)))
  {}

  /** Encrypting needs a nonce of twelve bytes, and gives the one secret that names the active key and that nonce and
      decrypts to the plaintext. */
  lemma EncryptIff(ring: Keyring, owner: Owner, plaintext: Bytes, nonce: Option<Bytes>, secret: Envelope)
    requires Usable(ring)
    ensures Encrypt(ring, owner, plaintext, nonce) == Success(secret) <==>
            && nonce.Some? && |nonce.value| == 12
            && Decrypt(ring, owner, secret) == Success(plaintext) && secret.keyID == ring.active
               && secret.nonce == nonce
  {}

  /** A keyring is accepted exactly if it has the active key, no key without an id and only keys of 32 bytes. */
  lemma KeyringIff(active: string, keys: map<string, Bytes>)
    ensures NewKeyring(active, keys).Success? <==>
            active in keys && "" !in keys && forall id :: id in keys ==> |keys[id]| == 32
    ensures NewKeyring(active, keys).Success? ==> NewKeyring(active, keys).value == Keyring(active, keys)
  {}

  // ---------------------------------------------------------------- the table

  datatype Credential = Credential(id: string, user: string, source: string, username: string, secret: Envelope,
                                   createdAt: int, updatedAt: int)

  type Table = map<string, Credential>

  function OwnerOf(row: Credential): Owner { Owner(row.id, row.user, row.source) }

  function Plaintext(ring: Keyring, row: Credential): Result<Bytes, SecretError> {
    Decrypt(ring, OwnerOf(row), row.secret)
  }

  ghost predicate Keyed(table: Table) {
    && (forall id :: id in table ==> table[id].id == id)
    && (forall a, b :: SameSource(table, a, b) ==> a == b)
  }

  predicate SameSource(table: Table, a: string, b: string) {
    a in table && b in table && table[a].user == table[b].user && table[a].source == table[b].source
  }

  datatype Store = Store(table: Table, audit: seq<Audit>)

  predicate ValidCredential(row: Credential) {
    row.id != "" && row.user != "" && row.source != "" && row.username != "" && row.secret != Malformed("")
  }

  // Who already holds the credential of a user for a source.
  predicate Holds(table: Table, user: string, source: string, id: string) {
    id in table && table[id].user == user && table[id].source == source
  }

  /** SaveRegistryCredential, `users` being the rows the table may refer to. */
  ghost function Saved(store: Store, users: set<string>, row: Credential, audit: Audit, now: int, commits: bool)
    : (Store, Result<Credential, SecretError>)
  {
    var (table, log) := (store.table, store.audit + [Stamped(audit, now)]);
    if !ValidCredential(row) then (store, Failure(BadRecord))
    else if !ValidAudit(audit) then (store, Failure(BadAudit))
    else if id :| Holds(table, row.user, row.source, id) then
      (if table[id].id != row.id then (store, Failure(SetChanged))
       else if !commits then (store, Failure(NotCommitted))
       else
         var stored := row.(createdAt := table[id].createdAt, updatedAt := NextUpdatedAt(now, table[id].updatedAt));
         (Store(table[row.id := stored], log), Success(stored)))
    else if row.id in table || row.user !in users || !commits then (store, Failure(NotCommitted))
    else
      var stored := row.(createdAt := now, updatedAt := now);
      (Store(table[row.id := stored], log), Success(stored))
  }

  function Without(table: Table, user: string, source: string): Table {
    map id | id in table && !Holds(table, user, source, id) :: table[id]
  }

  function Deleted(store: Store, user: string, source: string, audit: Audit, now: int,
                   commits: bool): (Store, Result<(), SecretError>) {
    if !ValidAudit(audit) then (store, Failure(BadAudit))
    else if !commits then (store, Failure(NotCommitted))
    else (Store(Without(store.table, user, source), store.audit + [Stamped(audit, now)]), Success(()))
  }

  function Replaced(table: Table, replacements: map<string, Envelope>, ids: set<string>): Table
    requires ids <= replacements.Keys
  {
    map id | id in table :: if id in ids then table[id].(secret := replacements[id]) else table[id]
  }

  /** RotateRegistryCredentialSecrets. */
  function SecretsRotated(store: Store, replacements: map<string, Envelope>, audit: Audit, now: int, commits: bool)
    : (Store, Result<nat, SecretError>)
  {
    if !ValidAudit(audit) then (store, Failure(BadAudit))
    else if |store.table| != |replacements| then (store, Failure(SetChanged))
    else if exists id | id in store.table :: id !in replacements || replacements[id] == Malformed("")
    then (store, Failure(Incomplete))
    else if !commits then (store, Failure(NotCommitted))
    else
      (Store(Replaced(store.table, replacements, store.table.Keys), store.audit + [Stamped(audit, now)]),
       Success(|store.table|))
  }

  lemma SameCountSameKeys(table: Table, replacements: map<string, Envelope>)
    requires |table| == |replacements| && table.Keys <= replacements.Keys
    ensures table.Keys == replacements.Keys
  {
    assert |table.Keys| == |replacements.Keys|;
    if extra :| extra in replacements.Keys - table.Keys {
      assert table.Keys <= replacements.Keys - {extra};
      SubsetIsNoLarger(table.Keys, replacements.Keys - {extra});
    } else {
      assert replacements.Keys - table.Keys == {};
    }
  }

  lemma {:induction false} SubsetIsNoLarger(a: set<string>, b: set<string>)
    requires a <= b
    ensures |a| <= |b|
  {
    if x :| x in a {
      SubsetIsNoLarger(a - {x}, b - {x});
    }
  }

  // ---------------------------------------------------------------- rotation

  /** The replacement of one row: re-encrypted under the active key of `ring`. */
  function Renewed(ring: Keyring, row: Credential, nonces: string -> Option<Bytes>): Result<Envelope, SecretError>
    requires Usable(ring)
  {
    Reencrypt(ring, OwnerOf(row), row.secret, nonces(row.id))
  }

  predicate Renewable(ring: Keyring, table: Table, nonces: string -> Option<Bytes>)
    requires Usable(ring)
  {
    forall id | id in table :: Renewed(ring, table[id], nonces).Success?
  }

  function Renewals(ring: Keyring, table: Table, nonces: string -> Option<Bytes>): (r: map<string, Envelope>)
    requires Usable(ring) && Renewable(ring, table, nonces)
  {
    map id | id in table :: Renewed(ring, table[id], nonces).value
  }

  datatype Command = Command(oldID: string, oldKey: Bytes, newID: string, newKey: Bytes)

  function BothKeys(c: Command): Keyring { Keyring(c.newID, map[c.oldID := c.oldKey, c.newID := c.newKey]) }

  function NewKeyOnly(c: Command): Keyring { Keyring(c.newID, map[c.newID := c.newKey]) }

  predicate Acceptable(c: Command) { c.oldID != c.newID && Usable(BothKeys(c)) }

  /** A rotation is between two different key ids, both there, with keys of 32 bytes. */
  lemma AcceptableIff(c: Command)
    ensures Acceptable(c) <==>
            c.oldID != c.newID && c.oldID != "" && c.newID != "" && |c.oldKey| == 32 && |c.newKey| == 32
  {
    assert c.oldID in BothKeys(c).keys && c.newID in BothKeys(c).keys;
  }

  function RotationAudit(c: Command): Audit {
    Audit("", "system", "credential.key_rotated", "credential_key", c.newID, "success", 0)
  }

  /** runAdminRotateCredentialKey: the rows are read in `read` and replaced in `store`. */
  function Rotated(c: Command, read: Table, store: Store, nonces: string -> Option<Bytes>, now: int, commits: bool)
    : (Store, Result<nat, SecretError>)
  {
    if !Acceptable(c) then (store, Failure(KeyRejected))
    else if !Renewable(BothKeys(c), read, nonces) then (store, Failure(Unavailable))
    else SecretsRotated(store, Renewals(BothKeys(c), read, nonces), RotationAudit(c), now, commits)
  }

  /** A row's replacement opens under the new key alone, to what the row opened to. */
  lemma RenewedOpens(c: Command, row: Credential, nonces: string -> Option<Bytes>)
    requires Acceptable(c) && Renewed(BothKeys(c), row, nonces).Success?
    ensures Plaintext(BothKeys(c), row).Success?
    ensures Decrypt(NewKeyOnly(c), OwnerOf(row), Renewed(BothKeys(c), row, nonces).value) == Plaintext(BothKeys(c), row)
    ensures Renewed(BothKeys(c), row, nonces).value != Malformed("")
  {
    var plaintext := Plaintext(BothKeys(c), row);
    DecryptsIff(BothKeys(c), OwnerOf(row), plaintext.value, nonces(row.id), NewKeyOnly(c), OwnerOf(row));
  }

  class CredentialStore {
    var table: Table
    var audit: seq<Audit>
    var users: seq<string>

    ghost predicate Valid()
      reads this
    {
      Keyed(table) && forall id :: id in table ==> table[id].user in users
    }

    method ListRegistryCredentialsForUser(user: string) returns (rows: seq<Credential>)
      requires Valid()
      ensures forall row :: row in rows <==> row.id in table && row == table[row.id] && row.user == user
    {
      rows := [];
      var left := table.Keys;
      while left != {}
        invariant left <= table.Keys
        invariant forall row :: row in rows <==>
                    row.id in table && row.id !in left && row == table[row.id] && row.user == user
        decreases |left|
      {
        var id :| id in left;
        left := left - {id};
        if table[id].user == user { rows := rows + [table[id]]; }
      }
    }

    // The loop over the ids read in the transaction; it stops at a row without a replacement.
    method ReplaceSecrets(replacements: map<string, Envelope>) returns (complete: bool)
      modifies this`table
      ensures complete <==> forall id :: id in old(table) ==> id in replacements && replacements[id] != Malformed("")
      ensures complete ==> table == Replaced(old(table), replacements, old(table).Keys)
    {
      var begun := table;
      var ids := table.Keys;
      while ids != {}
        invariant ids <= begun.Keys == table.Keys
        invariant forall id :: id in ids ==> table[id] == begun[id]
        invariant forall id :: id in begun.Keys - ids ==>
                    id in replacements && replacements[id] != Malformed("")
                      && table[id] == begun[id].(secret := replacements[id])
        decreases |ids|
      {
        var id :| id in ids;
        if id !in replacements || replacements[id] == Malformed("") { return false; }
        table := table[id := table[id].(secret := replacements[id])];
        ids := ids - {id};
      }
      assert begun.Keys - ids == begun.Keys;
      assert table == Replaced(begun, replacements, begun.Keys);
      complete := true;
    }

    method RotateRegistryCredentialSecrets(replacements: map<string, Envelope>, event: Audit, now: int, commits: bool)
      returns (r: Result<nat, SecretError>)
      modifies this`table, this`audit
      ensures (Store(table, audit), r) == SecretsRotated(old(Store(table, audit)), replacements, event, now, commits)
    {
      if !ValidAudit(event) { return Failure(BadAudit); }
      var begun := Store(table, audit);
      if |table| != |replacements| { return Failure(SetChanged); }
      var complete := ReplaceSecrets(replacements);
      if !complete {
        table := begun.table;
        return Failure(Incomplete);
      }
      audit := audit + [Stamped(event, now)];
      if !commits {
        table, audit := begun.table, begun.audit;
        return Failure(NotCommitted);
      }
      r := Success(|begun.table|);
    }

    // The replacement of every row, user by user, each checked with the new key alone.
    method PlanRotation(c: Command, nonces: string -> Option<Bytes>) returns (plan: Option<map<string, Envelope>>)
      requires Valid() && Acceptable(c)
      ensures plan == if Renewable(BothKeys(c), table, nonces) then Some(Renewals(BothKeys(c), table, nonces)) else None
    {
      var ring := BothKeys(c);
      var replacements: map<string, Envelope> := map[];
      for i := 0 to |users|
        invariant forall id :: id in replacements <==> id in table && table[id].user in users[..i]
        invariant forall id :: id in replacements ==> Renewed(ring, table[id], nonces) == Success(replacements[id])
      {
        var rows := ListRegistryCredentialsForUser(users[i]);
        for j := 0 to |rows|
          invariant forall id :: id in replacements <==>
                      id in table && (table[id].user in users[..i] || table[id] in rows[..j])
          invariant forall id :: id in replacements ==> Renewed(ring, table[id], nonces) == Success(replacements[id])
        {
          var row := rows[j];
          assert row in rows;
          var renewed := Reencrypt(ring, OwnerOf(row), row.secret, nonces(row.id));
          if renewed.Failure? {
            assert Renewed(ring, table[row.id], nonces).Failure?;
            return None;
          }
          RenewedOpens(c, row, nonces);
          var verified := Decrypt(NewKeyOnly(c), OwnerOf(row), renewed.value);
          assert verified.Success?;
          assert rows[..j + 1] == rows[..j] + [row];
          replacements := replacements[row.id := renewed.value];
        }
        assert rows[..|rows|] == rows;
        assert users[..i + 1] == users[..i] + [users[i]];
      }
      assert users[..|users|] == users;
      assert replacements == Renewals(ring, table, nonces);
      plan := Some(replacements);
    }

    method RotateCredentialKey(c: Command, nonces: string -> Option<Bytes>, now: int, commits: bool)
      returns (r: Result<nat, SecretError>)
      requires Valid()
      modifies this`table, this`audit
      ensures (Store(table, audit), r) == Rotated(c, old(table), old(Store(table, audit)), nonces, now, commits)
    {
      if c.oldID == c.newID { return Failure(KeyRejected); }
      var ring := NewKeyring(c.newID, map[c.oldID := c.oldKey, c.newID := c.newKey]);
      if ring.Failure? { return Failure(KeyRejected); }
      var plan := PlanRotation(c, nonces);
      if plan == None { return Failure(Unavailable); }
      r := RotateRegistryCredentialSecrets(plan.value, RotationAudit(c), now, commits);
    }
  }

  // ---------------------------------------------------------------- what a rotation guarantees

  // `after` is `store` with every secret replaced by one that opens, under the new key alone, to what `read` held.
  ghost predicate Rekeyed(c: Command, read: Table, store: Store, after: Store, now: int) {
    && after.table.Keys == store.table.Keys == read.Keys
    && after.audit == store.audit + [Audit("", "system", "credential.key_rotated", "credential_key", c.newID, "success",
                                           now)]
    && forall id :: id in after.table ==>
         && after.table[id] == store.table[id].(secret := after.table[id].secret)
         && Plaintext(BothKeys(c), read[id]).Success?
         && Decrypt(NewKeyOnly(c), OwnerOf(read[id]), after.table[id].secret) == Plaintext(BothKeys(c), read[id])
  }

  // What a rotation needs to succeed.
  predicate CanRotate(c: Command, read: Table, store: Store, nonces: string -> Option<Bytes>, commits: bool) {
    && Acceptable(c) && Renewable(BothKeys(c), read, nonces) && store.table.Keys == read.Keys && commits
  }

  lemma RenewalsOpen(c: Command, read: Table, nonces: string -> Option<Bytes>)
    requires Acceptable(c) && Renewable(BothKeys(c), read, nonces)
    ensures var renewals := Renewals(BothKeys(c), read, nonces);
            && renewals.Keys == read.Keys
            && forall id :: id in read ==>
                 && renewals[id] != Malformed("") && Plaintext(BothKeys(c), read[id]).Success?
                 && Decrypt(NewKeyOnly(c), OwnerOf(read[id]), renewals[id]) == Plaintext(BothKeys(c), read[id])
  {
    forall id | id in read
      ensures Renewed(BothKeys(c), read[id], nonces).value != Malformed("") && Plaintext(BothKeys(c), read[id]).Success?
      ensures Decrypt(NewKeyOnly(c), OwnerOf(read[id]), Renewed(BothKeys(c), read[id], nonces).value) ==
                Plaintext(BothKeys(c), read[id]) {
      RenewedOpens(c, read[id], nonces);
    }
  }

  lemma RotationNeedsTheSameRows(store: Store, replacements: map<string, Envelope>, audit: Audit, now: int,
                                 commits: bool)
    requires ValidAudit(audit) && forall id :: id in replacements ==> replacements[id] != Malformed("")
    ensures SecretsRotated(store, replacements, audit, now, commits).1.Success? <==>
              store.table.Keys == replacements.Keys && commits
  {
    assert |replacements| == |replacements.Keys| && |store.table| == |store.table.Keys|;
    if |store.table| == |replacements| && store.table.Keys <= replacements.Keys {
      SameCountSameKeys(store.table, replacements);
    }
  }

  /** A rotation succeeds exactly when every row read can be renewed and the rows are still the same ones;
      then it rekeys them all, and otherwise it changes nothing. */
  lemma RotationIsAllOrNothing(c: Command, read: Table, store: Store, nonces: string -> Option<Bytes>, now: int,
                               commits: bool)
    ensures var (after, r) := Rotated(c, read, store, nonces, now, commits);
            && (r.Success? <==> CanRotate(c, read, store, nonces, commits))
            && (if r.Success? then r.value == |store.table| && Rekeyed(c, read, store, after, now) else after == store)
  {
    if Acceptable(c) && Renewable(BothKeys(c), read, nonces) {
      RenewalsOpen(c, read, nonces);
      assert c.newID in BothKeys(c).keys;
      RotationNeedsTheSameRows(store, Renewals(BothKeys(c), read, nonces), RotationAudit(c), now, commits);
    }
  }

  lemma ReplacementSaysWhy(store: Store, replacements: map<string, Envelope>, audit: Audit, now: int, commits: bool)
    requires ValidAudit(audit) && forall id :: id in replacements ==> replacements[id] != Malformed("")
    ensures SecretsRotated(store, replacements, audit, now, commits).1 ==
            if |store.table.Keys| != |replacements.Keys| then Failure(SetChanged)
            else if store.table.Keys != replacements.Keys then Failure(Incomplete)
            else if !commits then Failure(NotCommitted)
            else Success(|store.table|)
  {
    assert |replacements| == |replacements.Keys| && |store.table| == |store.table.Keys|;
    if |store.table| == |replacements| && store.table.Keys <= replacements.Keys {
      SameCountSameKeys(store.table, replacements);
    }
  }

  /** Why a rotation fails: its keys, a row that cannot be renewed, another number of rows, other rows, or the
      commit. */
  lemma RotationSaysWhy(c: Command, read: Table, store: Store, nonces: string -> Option<Bytes>, now: int, commits: bool)
    ensures Rotated(c, read, store, nonces, now, commits).1 ==
            if !Acceptable(c) then Failure(KeyRejected)
            else if exists id :: id in read && Renewed(BothKeys(c), read[id], nonces).Failure? then Failure(Unavailable)
            else if |store.table.Keys| != |read.Keys| then Failure(SetChanged)
            else if store.table.Keys != read.Keys then Failure(Incomplete)
            else if !commits then Failure(NotCommitted)
            else Success(|store.table|)
  {
    if Acceptable(c) && Renewable(BothKeys(c), read, nonces) {
      RenewalsOpen(c, read, nonces);
      assert c.newID in BothKeys(c).keys;
      ReplacementSaysWhy(store, Renewals(BothKeys(c), read, nonces), RotationAudit(c), now, commits);
    }
  }

  // ---------------------------------------------------------------- saves in between

  datatype Change = Save(row: Credential, audit: Audit, now: int, commits: bool)
                  | Delete(user: string, source: string, audit: Audit, now: int, commits: bool)

  ghost function Changed(store: Store, users: set<string>, change: Change): Store {
    match change
    case Save(row, audit, now, commits) => Saved(store, users, row, audit, now, commits).0
    case Delete(user, source, audit, now, commits) => Deleted(store, user, source, audit, now, commits).0
  }

  // New ids are random: an id that was in use is not drawn again.
  ghost predicate Fresh(start: Table, store: Store, change: Change) {
    change.Save? && change.row.id in start ==> change.row.id in store.table
  }

  ghost predicate Evolves(start: Table, store: Store, users: set<string>, changes: seq<Change>, end: Store)
    decreases |changes|
  {
    if changes == [] then store == end
    else Fresh(start, store, changes[0]) && Evolves(start, Changed(store, users, changes[0]), users, changes[1..], end)
  }

  ghost predicate SameOwners(start: Table, table: Table) {
    forall id :: id in start && id in table ==> OwnerOf(table[id]) == OwnerOf(start[id])
  }

  /** One credential per user and source, and a row never changes owner. */
  lemma SaveKeepsOwners(start: Table, store: Store, users: set<string>, change: Change)
    requires Keyed(store.table) && SameOwners(start, store.table) && Fresh(start, store, change)
    ensures Keyed(Changed(store, users, change).table) && SameOwners(start, Changed(store, users, change).table)
  {
    var table, after := store.table, Changed(store, users, change).table;
    forall a, b | SameSource(after, a, b) ensures a == b {
      if change.Save? {
        var row := change.row;
        assert a != row.id && b != row.id ==> SameSource(table, a, b);
        if a != row.id { assert Holds(after, row.user, row.source, a) ==> Holds(table, row.user, row.source, a); }
        if b != row.id { assert Holds(after, row.user, row.source, b) ==> Holds(table, row.user, row.source, b); }
        assert row.id in table ==>
                SameSource(table, a, b) || Holds(table, row.user, row.source, a)
                  || Holds(table, row.user, row.source, b);
      } else {
        assert SameSource(table, a, b);
      }
    }
  }

  lemma {:induction false} EvolvingKeepsOwners(start: Table, store: Store, users: set<string>, changes: seq<Change>,
                                               end: Store)
    requires Keyed(store.table) && SameOwners(start, store.table) && Evolves(start, store, users, changes, end)
    ensures Keyed(end.table) && SameOwners(start, end.table)
    decreases |changes|
  {
    if changes != [] {
      SaveKeepsOwners(start, store, users, changes[0]);
      EvolvingKeepsOwners(start, Changed(store, users, changes[0]), users, changes[1..], end);
    }
  }

  // The credential a change stores under `id`, if it is a save of it that is committed.
  ghost function SavedBy(store: Store, users: set<string>, change: Change, id: string): Option<Credential> {
    if change.Save? && change.row.id == id
      && Saved(store, users, change.row, change.audit, change.now, change.commits).1.Success?
    then Some(change.row) else None
  }

  // The credential of the last save of `id` that was committed.
  ghost function LastSaved(store: Store, users: set<string>, changes: seq<Change>, id: string): Option<Credential>
    decreases |changes|
  {
    if changes == [] then None
    else Latest(LastSaved(Changed(store, users, changes[0]), users, changes[1..], id),
                SavedBy(store, users, changes[0], id))
  }

  function Latest<T>(later: Option<T>, earlier: Option<T>): Option<T> { if later.Some? then later else earlier }

  lemma OneChange(store: Store, users: set<string>, change: Change, id: string)
    requires id in Changed(store, users, change).table
    ensures var after := Changed(store, users, change).table;
            if SavedBy(store, users, change, id).Some?
            then after[id] == change.row.(createdAt := after[id].createdAt, updatedAt := after[id].updatedAt)
            else id in store.table && after[id] == store.table[id]
  {}

  lemma {:induction false} LastSaveDecides(start: Table, store: Store, users: set<string>, changes: seq<Change>,
                                           end: Store, id: string)
    requires Evolves(start, store, users, changes, end) && id in end.table
    ensures var last, row := LastSaved(store, users, changes, id), end.table[id];
            if last == None then id in store.table && row == store.table[id]
            else row == last.value.(createdAt := row.createdAt, updatedAt := row.updatedAt)
    decreases |changes|
  {
    if changes != [] {
      var next := Changed(store, users, changes[0]);
      LastSaveDecides(start, next, users, changes[1..], end, id);
      if LastSaved(next, users, changes[1..], id) == None {
        OneChange(store, users, changes[0], id);
      }
    }
  }

  /** Whatever is saved or deleted while a rotation runs, and whenever each row is read: if the rotation succeeds,
      a row opens under the new key alone to what it held when it was read. That is what it held last exactly when
      no save of the row was committed since, or the last one sealed the same plaintext again. */
  lemma RotationKeepsPlaintexts(c: Command, read: Table, start: Store, users: set<string>, changes: seq<Change>,
                                store: Store,
                                nonces: string -> Option<Bytes>, now: int, commits: bool, id: string)
    requires Keyed(start.table) && Evolves(start.table, start, users, changes, store)
    requires id in start.table && id in read && read[id] == start.table[id]
    requires Rotated(c, read, store, nonces, now, commits).1.Success?
    ensures var after := Rotated(c, read, store, nonces, now, commits).0;
            && id in after.table && id in store.table && Plaintext(BothKeys(c), read[id]).Success?
            && Plaintext(NewKeyOnly(c), after.table[id]) == Plaintext(BothKeys(c), read[id])
            && var saved := LastSaved(start, users, changes, id);
               Plaintext(NewKeyOnly(c), after.table[id]) == Plaintext(BothKeys(c), store.table[id]) <==>
               saved == None || Plaintext(BothKeys(c), saved.value) == Plaintext(BothKeys(c), read[id])
  {
    RotationIsAllOrNothing(c, read, store, nonces, now, commits);
    EvolvingKeepsOwners(start.table, start, users, changes, store);
    LastSaveDecides(start.table, start, users, changes, store, id);
    var after := Rotated(c, read, store, nonces, now, commits).0;
    assert OwnerOf(after.table[id]) == OwnerOf(store.table[id]) == OwnerOf(read[id]);
  }

  // ---------------------------------------------------------------- a save that is overwritten

  // The credential of user "u" for source "s", sealed under the old key.
  function Sealed(c: Command, nonce: Bytes, plaintext: Bytes): Credential {
    var box := Box(c.oldKey, nonce, Owner("c", "u", "s"), plaintext);
    Credential("c", "u", "s", "name", Envelope(1, ALGORITHM, c.oldID, Some(nonce), Some(box)), 1, 1)
  }

  function Saving(row: Credential): Change {
    Save(row, Audit("u", "user", "saved", "credential", row.id, "success", 0), 2, true)
  }

  lemma SealedOpens(c: Command, nonce: Bytes, plaintext: Bytes, nonces: string -> Option<Bytes>)
    requires Acceptable(c) && |nonce| == NONCE_SIZE && nonces("c") == Some(nonce)
    ensures Plaintext(BothKeys(c), Sealed(c, nonce, plaintext)) == Success(plaintext)
    ensures Renewable(BothKeys(c), map["c" := Sealed(c, nonce, plaintext)], nonces)
  {}

  lemma SavingStores(store: Store, stored: Credential, row: Credential)
    requires store.table == map["c" := stored] && stored.id == row.id == "c" && OwnerOf(stored) == OwnerOf(row)
    requires ValidCredential(row) && stored.createdAt == row.createdAt == 1 && stored.updatedAt == row.updatedAt == 1
    ensures Changed(store, {"u"}, Saving(row)).table == map["c" := row.(updatedAt := 2)]
  {
    assert Holds(store.table, row.user, row.source, "c");
  }

  /** The rotation reads [0]; [1] is saved and committed; the rotation succeeds, and the credential is [0] again. */
  lemma InterleavedSaveIsOverwritten(c: Command, nonce: Bytes, nonces: string -> Option<Bytes>)
    requires Acceptable(c) && |nonce| == NONCE_SIZE && nonces("c") == Some(nonce)
    ensures var start := Store(map["c" := Sealed(c, nonce, [0])], []);
            var saves := Saving(Sealed(c, nonce, [1]));
            var store := Changed(start, {"u"}, saves);
            var (after, r) := Rotated(c, start.table, store, nonces, 3, true);
            && Evolves(start.table, start, {"u"}, [saves], store) && r.Success? && "c" in store.table
               && "c" in after.table
            && Plaintext(BothKeys(c), store.table["c"]) == Success([1])
            && Plaintext(NewKeyOnly(c), after.table["c"]) == Success([0])
  {
    var start := Store(map["c" := Sealed(c, nonce, [0])], []);
    var saves := Saving(Sealed(c, nonce, [1]));
    var store := Changed(start, {"u"}, saves);
    SavingStores(start, Sealed(c, nonce, [0]), Sealed(c, nonce, [1]));
    SealedOpens(c, nonce, [0], nonces);
    SealedOpens(c, nonce, [1], nonces);
    assert [saves][1..] == [] && Evolves(start.table, store, {"u"}, [], store);
    RotationIsAllOrNothing(c, start.table, store, nonces, 3, true);
  }

  // The one row that a user has for a source, if there is one.
  lemma HeldByOne(table: Table, user: string, source: string, id: string)
    requires Keyed(table) && Holds(table, user, source, id)
    ensures forall other :: Holds(table, user, source, other) <==> other == id
  {
    forall other | Holds(table, user, source, other) ensures other == id {
      assert SameSource(table, id, other);
    }
  }

  // A row that leaves nothing out.
  predicate Whole(row: Credential) {
    "" !in [row.id, row.user, row.source, row.username] && row.secret != Malformed("")
  }

  ghost predicate Held(table: Table, user: string, source: string) { exists id :: Holds(table, user, source, id) }

  /** A credential is saved exactly if it and its audit event are valid, nobody else's row holds the user's place for
      the source, a new row has a new id and a user there is, and the transaction commits. Otherwise nothing changes. */
  lemma SavedIff(store: Store, users: set<string>, row: Credential, audit: Audit, now: int, commits: bool)
    requires Keyed(store.table)
    ensures var (after, r) := Saved(store, users, row, audit, now, commits);
            && (r.Success? <==>
                && Whole(row) && ValidAudit(audit) && commits
                && (Holds(store.table, row.user, row.source, row.id)
                    || (!Held(store.table, row.user, row.source) && row.id !in store.table && row.user in users)))
            && (if r.Success? then
                  && after == Store(store.table[row.id := r.value], store.audit + [Stamped(audit, now)])
                  && r.value == row.(createdAt := r.value.createdAt, updatedAt := r.value.updatedAt)
                  && (row.id !in store.table ==> r.value.createdAt == r.value.updatedAt == now)
                  && (row.id in store.table ==>
                        && r.value.createdAt == store.table[row.id].createdAt && r.value.updatedAt >= now
                        && r.value.updatedAt > store.table[row.id].updatedAt)
                else after == store)
            && (r == Failure(SetChanged) <==>
                && ValidCredential(row) && ValidAudit(audit) && Held(store.table, row.user, row.source)
                && !Holds(store.table, row.user, row.source, row.id))
  {
    if id :| Holds(store.table, row.user, row.source, id) {
      HeldByOne(store.table, row.user, row.source, id);
    }
  }

  /** Deleting takes away the user's row for the source and no other, and is audited even if there was none. */
  lemma DeletedIff(store: Store, user: string, source: string, audit: Audit, now: int, commits: bool)
    ensures var (after, r) := Deleted(store, user, source, audit, now, commits);
            && (r.Success? <==> ValidAudit(audit) && commits)
            && (if r.Success? then
                  && after.audit == store.audit + [Stamped(audit, now)] && !Held(after.table, user, source)
                  && (forall id :: id in after.table <==>
                        id in store.table && (store.table[id].user != user || store.table[id].source != source))
                  && (forall id :: id in after.table ==> after.table[id] == store.table[id])
                else after == store)
  {}

  /** A credential that was saved is the one its user finds for the source, and its secret opens to what was
      sealed; a row it replaced keeps its creation time and gets a later mtime. */
  lemma SavedIsFound(store: Store, users: set<string>, ring: Keyring, row: Credential, plaintext: Bytes,
                     nonce: Option<Bytes>,
                     audit: Audit, now: int, commits: bool, id: string)
    requires Keyed(store.table) && Usable(ring) && Encrypt(ring, OwnerOf(row), plaintext, nonce) == Success(row.secret)
    requires Saved(store, users, row, audit, now, commits).1.Success?
    ensures var (after, r) := Saved(store, users, row, audit, now, commits);
            && Plaintext(ring, r.value) == Success(plaintext) && after.table == store.table[row.id := r.value]
            && (row.id in store.table ==>
                    store.table[row.id].createdAt == r.value.createdAt
                      && store.table[row.id].updatedAt < r.value.updatedAt)
            && (Holds(after.table, row.user, row.source, id) <==> id == row.id)
  {
    DecryptsIff(ring, OwnerOf(row), plaintext, nonce, ring, OwnerOf(row));
    if Holds(store.table, row.user, row.source, id) {
      var other :| Holds(store.table, row.user, row.source, other) && (id == row.id || other == row.id);
      assert SameSource(store.table, id, other);
    }
  }
}
