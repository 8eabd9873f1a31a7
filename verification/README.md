# A model of Regstair's gateway guarantees

Regstair is an OCI gateway. It routes a repository name to one of several upstream registries, keeps what it
fetched in a content store, and decides who may read that cache. This project models the state machines behind
those guarantees in Dafny and proves what they promise over all inputs and, where state is involved, over all runs
and interleavings.

`dafny verify dfyconfig.toml` checks everything.

| File | Models |
|---|---|
| `Policy.dfy` | repository names, patterns, routes and their acceptance (`internal/policy/policy.go`) |
| `Content.dfy`, `Writers.dfy` | the content-addressed store, alone and with writers interleaved (`internal/content/store.go`) |
| `Metadata.dfy` | cache bindings and tag mappings (`internal/metadata`) |
| `Registry.dfy` | manifests and the in-memory reference registry (`internal/registry`) |
| `Resolution.dfy`, `Access.dfy`, `PullResolver.dfy`, `Fallback.dfy`, `Push.dfy`, `CacheRuns.dfy`, `CacheGuarantees.dfy`, `CacheExamples.dfy` | pulls, pushes, who may use a source or the cache, and whole runs of them (`internal/resolution`, `internal/auth/runtime_credentials.go`) |
| `Identity.dfy`, `Tokens.dfy`, `Accounts.dfy`, `AccountRuns.dfy`, `AccountExamples.dfy`, `Authority.dfy`, `Administration.dfy`, `Bearers.dfy` | users, tokens, sessions, their transactions, and the services that read outside them (`internal/metadata/sqlite_security.go`, `internal/auth`) |
| `Secrets.dfy` | stored credentials and the rotation of their key (`internal/auth/secrets.go`, `cmd/regstair/main.go`) |
| `RateLimit.dfy` | the login failure limiter (`internal/security/rate_limit.go`) |
| `Requests.dfy`, `CursorCodec.dfy` | paging of the request log and its cursors |
| `Challenge.dfy` | the Bearer challenge, printed and parsed (section 2.1 of RFC 7235, section 3.2.6 of RFC 7230) |
| `Text.dfy`, `Ordering.dfy` | string trimming, stable sorting and filtering |

Two forms recur. What the source changes in place is a class whose methods are proved equal to functions on values,
and the theorems are about those functions. What the source runs concurrently is a set of steps in any order.

## What is assumed

- SHA-256 is an arbitrary function parameter. Where two contents with one digest would matter, the statement says
  so: it either names the collision as the alternative or requires that fetched contents have none.
- Decoding a manifest's JSON is a parameter. The run theorems take upstream answers in the form `ParseManifest`
  gives them, because a registry's digest header can replace the computed digest and `PutBlob` does not look again
  at a digest it already holds.
- The cipher is ideal: a box opens only under the key, nonce and associated data that sealed it. A bearer token's
  signature verifies exactly for claims issued under the key in use.
- Random ids, nonces and temporary file names are fresh. The clock reads after 1970.
- One SQL transaction is one step, as `SetMaxOpenConns(1)` makes it. SQL's unique and foreign keys are enforced.
- The authorizer is `RouteAuthorizer`, as the application installs it: every pull is let through, and pushes of local users.
- A pull or a push runs as one step with one clock reading; its upstream may answer anything on every call.

## Where the code is narrower than it reads

- `validateRoutes` asks `patternsOverlap` in one order only. `Policy.AcceptedAmbiguityIff` says exactly which ambiguity
  that lets through, and `Policy.AcceptanceDependsOnOrder` shows one.
- The repository's README.md, line 182, says an authorization failure does not advance fallback. An upstream's
  authorization error does (`Fallback.UpstreamAuthorizationAdvances`); the provider's own errors do not.
- A push writes no tag mapping, so a fresh one keeps being served (`Pushing.FreshTagOutlivesPush`).
- A denial by the cache ends a pull; it is not followed by the sources.
- An update whose caller sends an mtime beyond the one it was shown can lose another update
  (`AccountExamples.GuessedMtimeLosesAnUpdate`), and can disable or rename a user or change the access without revoking
  anything (`AccountExamples.UnnoticedDemotion`), because both are decided on rows read outside the transaction.
  `AccountRuns.StaleReadsAreHarmless` and `AccountRuns.RevocationIsPermanent` give the exact conditions.
- A login reads the password and opens the session in two steps. Revocation covers the sessions there are when it
  commits, so one opened after it by a login that read before is not covered, unless the user is disabled
  (`AccountRuns.LoginStandsOnItsRead`).
- `PutBlob` does not read the stream of a digest it holds, so a fetch binds a stored blob its source merely names
  (`CacheExamples.UnstreamedBlobIsServed`); `CacheGuarantees.HonestCacheNeverWidensAccess` is what holds of sources that
  stream what they name. A push likewise publishes any stored blob it names (`Pushing.PushPublishesAnyStoredBlob`).
- The rotation has no check on the row it replaces, so a credential saved while it runs is overwritten
  (`Secrets.InterleavedSaveIsOverwritten`); `Secrets.RotationKeepsPlaintexts` gives the exact condition.
- Sweeping the limiter is invisible exactly when `window + block` does not overflow or one failure already blocks
  (`RateLimit.SweepInvisibleIff`).

## Model

| member | source | states |
|---|---|---|
| Policy.NormalizeCutsEnds | internal/policy/policy.go:173-189 | Normalizing a repository name only cuts spaces and slashes off its ends, and normalizing the result again changes nothing. |
| Policy.NameIff | internal/policy/policy.go:173-189 | A text with no space or slash at its ends is a name exactly if it is not empty, has no two slashes together and holds only lower-case letters, digits, slashes, dots, underscores and hyphens. |
| Policy.OverlapIsExact | internal/policy/policy.go:278-312 | For canonical patterns, `patternsOverlap` asked in both orders holds exactly when some normalized repository matches both patterns. |
| Policy.OneOrderMisses | internal/policy/policy.go:290-312 | One order misses a common repository exactly when the first pattern is a tree strictly inside the second. |
| Policy.TruncationStopsAtTerminal | internal/policy/policy.go:314-321 | Truncation keeps the sources in order, up to and including the first authoritative one. |
| Policy.ValidateSources | internal/policy/policy.go:235-247 | Sources are accepted exactly when all ids are non-empty and different. |
| Policy.RouteSourcesIff | internal/policy/policy.go:249-276 | Once sources are configured a route may name only those, and its authoritative source must be one it pulls from. |
| Policy.PatternIff | internal/policy/policy.go:216-222 | A pattern is valid exactly if it is "**", what normalizes to a name, or a tree of such. |
| Policy.ValidateRoutes | internal/policy/policy.go:201-233 | Routes are accepted exactly when each is valid, names differ, and no route overlaps a later one of its precedence in the order asked. |
| Policy.NewEngine | internal/policy/policy.go:77-88 | An engine is built exactly from an accepted configuration, its routes stably sorted by precedence. |
| Policy.RouteIsSelected | internal/policy/policy.go:90-102 | When no two routes of one precedence overlap in either order, matching returns the one matching route of least precedence, and fails only when none matches. |
| Policy.EngineTakes | internal/policy/policy.go:90-102 | Whatever the configuration, matching returns the first of the matching routes that have the least precedence, and NoRoute exactly when none matches. |
| Policy.PullDecisionIff | internal/policy/policy.go:104-142 | A pull is decided exactly when a configured route takes the normalized name, and then by that route: its name, rewritten repository, candidates, authoritative source and fallback. |
| Policy.PushDecisionIff | internal/policy/policy.go:144-171 | A push is let through exactly when a configured route takes the normalized name, does not deny pushes and has a destination; it goes to that destination. |
| Policy.RefusalSaysWhy | internal/policy/policy.go:90-171 | A refusal says whether the name is invalid, no route takes it, or the route lets no push through. |
| Policy.RewriteReplacesPrefix | internal/policy/policy.go:191-199 | A rewrite takes its prefix off a name that has it, leaves any other, and puts its own prefix in front. |
| Policy.TreesTakeWhatIsBelow | internal/policy/policy.go:278-288 | A tree matches exactly what lies below its base, "**" everything, any other pattern itself. |
| Policy.CandidatesEndAtAuthoritative | internal/policy/policy.go:115-118 | With fallback blocked the candidates end at the first authoritative source; otherwise they are all the sources of the route. |
| Policy.RoutingIgnoresOrder | internal/policy/policy.go:77-171 | Then any permutation of the configured routes is accepted alike and gives the same pull and push decisions. |
| Policy.AcceptedAmbiguityIff | internal/policy/policy.go:225-230 | An accepted configuration is ambiguous exactly when a tree precedes a tree around it at one precedence. |
| Policy.AcceptanceDependsOnOrder | internal/policy/policy.go:225-230 | Two ambiguous routes that are accepted in one order and refused in the other. |
| Content.ParseDigestIff | internal/content/store.go:183-198 | A digest is supported exactly when it is "sha256:" and 64 hexadecimal digits. |
| Content.BlobNameIff | internal/content/store.go:183-198 | A blob's name is 64 hexadecimal digits of either case. |
| Content.PutAddsOnly | internal/content/store.go:59-108 | A put adds the blob it was asked for, checked against its digest, or changes nothing; no blob is ever replaced. |
| Content.PutIff | internal/content/store.go:59-108 | A put succeeds exactly for a supported digest that is held already, or whose source reads whole and hashes to it; it adds what it read, under that digest; and each failure has its own cause. |
| Content.ReadAllJoins | internal/content/store.go:209-235 | A source is read piece after piece, whole unless a read breaks. |
| Content.FileStore.PutBlob | internal/content/store.go:59-108 | The temporary file, the copy loop and the rename leave exactly what the put function says. |
| Content.FileStore.ListBlobs | internal/content/store.go:140-177 | The listing holds exactly the visible digests with their sizes, each once, in digest order, and no temporary file. |
| Writers.StepIsSafe | internal/content/store.go:59-108 | Every step of interleaved puts keeps visible blobs addressed and present, and each writer's temporary its own. |
| Writers.ConcurrentPutsAreSafe | internal/content/store.go:59-108 | In every interleaving of puts, with short writes, cancellations and failed renames, visible blobs hash to their names and stay, a reported success is visible, and no temporary outlives its call. |
| Writers.LoneWriterPuts | internal/content/store.go:59-108 | A call that nobody disturbs can always finish, from any state, and does then what a put does. |
| Writers.FailedRenameSettles | internal/content/store.go:100-105 | A call whose rename fails has succeeded exactly if another has finished the blob by then. |
| Metadata.RecordingAdds | internal/metadata/sqlite_cache_bindings.go:8-43 | Saving bindings adds exactly the keys given, loses none and keeps keys unique. |
| Metadata.UpsertStores | internal/metadata/sqlite_cache_bindings.go:8-43 | Saving a binding leaves one row for its key with what it says, and every other row as it was; a row that was there keeps its creation time and gets a later update time. |
| Metadata.RecordedIff | internal/metadata/cache_bindings.go:9-23 | Bindings are saved exactly if each names everything it should, and a user just when it requires the current one. |
| Metadata.ListingIsExact | internal/metadata/sqlite_cache_bindings.go:45-73 | A listing returns all bindings of the object under the repository and route, and no other, each field deciding where those before it agree: source, manifest digest, access by its text, user. |
| Metadata.Repository.RecordCacheBindings | internal/metadata/cache_bindings.go:9-52 | All bindings are validated before any is saved; then each is inserted or updates the row with its key. |
| Metadata.Repository.ListCacheBindings | internal/metadata/cache_bindings.go:54-68 | The loop and sort return the listing that ListingIsExact describes. |
| Metadata.Repository.RecordTagMapping | internal/metadata/repository.go:559-579 | A valid mapping replaces the one of its repository and tag; an invalid one changes nothing. |
| Metadata.MappingIff | internal/metadata/repository.go:559-579 | A mapping is recorded exactly if it and its tag name everything they should, and replaces only the one of that tag; without a time it is resolved now. |
| Registry.PutIsFound | internal/registry/connector.go:129-169 | The reference registry takes a manifest exactly when it holds all its blobs, finds it by tag and digest and leaves every other reference and blob alone; a blob is taken exactly when it matches its digest, and then opens to what was sent. |
| Registry.DownIsDown | internal/registry/connector.go:99-169 | A registry that is down answers nothing and takes nothing. |
| Registry.ParsedManifest | internal/registry/manifest.go:9-47 | A parsed manifest is its body with hash and length; its blobs are the config and then the layers that have a digest; the image manifest type is the default. |
| Registry.FakeConnector.PutBlob | internal/registry/connector.go:129-152 | The new registry state and reply of a blob upload. |
| Registry.FakeConnector.PutManifest | internal/registry/connector.go:154-169 | The loop over blob digests and the two table entries leave exactly what the put function says. |
| Registry.FakeConnector.ResolveManifest | internal/registry/connector.go:99-112 | What the registry answers for a repository and reference. |
| Registry.FakeConnector.OpenBlob | internal/registry/connector.go:114-127 | What the registry answers for a digest. |
| Fallback.SearchPassesOn | internal/resolution/pull.go:128-191 | Every source asked but the last passed the pull on; the last one served it, stopped it, or was the last there is. |
| Fallback.FallbackDiscipline | internal/resolution/pull.go:128-203 | The sources tried are the first of the route's in order, none after the first authoritative one when fallback is off, and none after a credential, authentication or provider authorization error. |
| Fallback.ServedByTheLastTried | internal/resolution/pull.go:171-191 | The result names the last source tried and reports fallback exactly when that is not the first. |
| Fallback.UnservedPullBlames | internal/resolution/pull.go:193-202 | A pull that no source serves changes nothing and answers for the last source asked: that nothing was found if it lacks the manifest, broke or is disabled, or there was none to ask; otherwise what was wrong with it. |
| Fallback.UpstreamAuthorizationAdvances | internal/resolution/pull.go:159-162 | An upstream's authorization error moves the pull to the next candidate, which may serve it. |
| PullResolvers.PullResolver.CacheManifest | internal/resolution/pull.go:209-230 | The manifest and then its blobs are put in the store, stopping at the first failure. |
| PullResolvers.PullResolver.RecordCacheBindings | internal/resolution/pull.go:293-306 | The manifest and each blob are bound with one source, access and user. |
| PullResolvers.PullResolver.AuthorizeCachedObject | internal/resolution/pull.go:308-335 | The first listed binding of a candidate source that allows the principal, or else the last denial. |
| PullResolvers.PullResolver.TryCache | internal/resolution/pull.go:232-291 | What the cache answers for a digest or a tag: a result, a refusal that ends the pull, or nothing. |
| PullResolvers.PullResolver.Pull | internal/resolution/pull.go:106-203 | The new store, bindings and tags, and the result or error, of a whole pull. |
| PullResolvers.PullResolver.OpenBlob | internal/resolution/pull.go:337-366 | What a blob request returns. |
| Access.ConnectorIff | internal/auth/runtime_credentials.go:42-83 | A principal gets a connector with a credential exactly when it is due: the proxy credential for enabled users of a proxy source, an own usable credential of any other source, none for a challenge source pulled anonymously or by an enabled user without one. |
| Access.RefusalSaysWhy | internal/auth/runtime_credentials.go:42-83 | Otherwise the error says whether the source is unavailable, the user disabled, the credential unusable or one is missing. |
| Access.AllowedIff | internal/auth/runtime_credentials.go:85-114 | A binding allows everybody if it is open, enabled users if it is a proxy's, and else its enabled user who still holds a credential for the source. |
| Access.DenialSaysWhy | internal/auth/runtime_credentials.go:85-114 | A denial requires a credential of who has none, and forbids the rest. |
| Access.TurnIff | internal/resolution/pull.go:128-171 | What a source does for a pull: serve the manifest it finds, stop the pull when it or the provider rejects who asks, or let it pass. |
| CacheRuns.FetchIsDescribed | internal/resolution/pull.go:293-306 | What a fetch leaves in the metadata: a binding of its manifest and of each blob, for whom its credential says, and for a tag a mapping good for 24 hours. |
| CacheGuarantees.CredentialIsDue | internal/auth/runtime_credentials.go:42-83 | A fetch that happened used the proxy credential exactly when its source is configured as a proxy, the user's own exactly when the fetcher is an enabled user with a usable one for a source that is not, and none exactly at a challenge source when the fetcher is anonymous or holds none. |
| CacheGuarantees.CacheNeverWidensAccess | internal/resolution/pull.go:293-366 | In every run a blob opens for a principal exactly when some upstream fetch of the same repository and route bound it: from a challenge source without a credential, from a source configured as a proxy and the principal is an enabled user, or with the principal's own credential, still held; it opens under that fetch's credential. That fetch streamed bytes that hash to the digest, or the store held them before it. |
| CacheGuarantees.HonestCacheNeverWidensAccess | internal/resolution/pull.go:209-230 | When upstreams stream the blobs their manifests name, a blob opens exactly when a fetch the principal is entitled to streamed it. |
| CacheRuns.FetchIsAccounted | internal/content/store.go:69-98 | A fetch streamed every object that the store did not hold; and all of them exactly when the upstream streamed, for each blob the manifest names, bytes that hash to it (a manifest that names its own digest aside). |
| CacheExamples.UnstreamedBlobIsServed | internal/content/store.go:69-77 | A run in which a source names a stored blob and streams nothing of it, and the blob then opens for everybody who may pull from that source. |
| CacheGuarantees.CachedManifestIsCovered | internal/auth/runtime_credentials.go:85-114 | Likewise every manifest the cache answers with, by tag or by digest, was bound by a fetch the principal is entitled to, and hashes to its digest. |
| CacheGuarantees.DigestHitIsParsed | internal/resolution/pull.go:377-409 | In every run a digest hit is the stored content as parsing it gives it, media type and blobs included; and the manifest of any fetch of that digest, unless two contents share it. |
| CacheGuarantees.DenialIff | internal/resolution/pull.go:308-335 | In every run the cache knows nothing of an object exactly when no candidate's fetch bound it, and denies the principal exactly when some did and none in a way the principal is entitled to. |
| CacheGuarantees.DeniedPullFails | internal/resolution/pull.go:232-255 | Such a denial ends the pull: it fails and changes nothing, whatever the sources would answer. |
| CacheGuarantees.UnboundPullAsksSources | internal/resolution/pull.go:232-291 | A pull that seeks nothing in the cache, or what no binding names, goes on to the sources. |
| CacheGuarantees.BlobRefusalSaysWhy | internal/resolution/pull.go:337-366 | In every run a blob that does not open was refused by policy, bound by no candidate's fetch, or bound and none in a way the principal is entitled to. |
| CacheGuarantees.SoughtByReference | internal/resolution/pull.go:232-291 | A reference that begins with "sha256:" is sought as a digest, any other as a tag while its mapping is fresh. |
| CacheGuarantees.CacheAgreesWithUpstream | internal/resolution/pull.go:232-291 | In every run a tag hit returns the whole manifest of the latest successful upstream pull of that repository and tag, at most 24 hours after it, unless two contents share a digest. |
| CacheGuarantees.FreshTagIsServed | internal/resolution/pull.go:256-291 | For those 24 hours the cache does answer everybody entitled to what that pull fetched, unless the same object was also fetched from another source or for another manifest. |
| CacheRuns.SuccessIsFetched | internal/resolution/pull.go:411-444 | A pull of a tag from the sources succeeds exactly when its fetch records the tag mapping, and returns what it fetched. |
| CacheGuarantees.DockerPullCanFinish | internal/resolution/pull.go:164-169 | After a successful tag pull, by miss or hit, its principal can open every blob of the manifest for as long as accounts stay as they are, whatever pulls, pushes, uploads and clock ticks follow. |
| CacheRuns.ActionIsCoherent | internal/resolution/pull.go:209-335 | Every action keeps the cache in step with the fetches: bindings and tags match them, and every bound object is stored. |
| Pushing.PushResolver.Push | internal/resolution/push.go:66-151 | The new store, the destination's new state and the result or error of a push. |
| Pushing.PushResolver.PublishBlob | internal/resolution/push.go:167-185 | A staged blob is uploaded to the destination, or why not. |
| Pushing.Delivery | internal/resolution/push.go:101-134 | Every blob reaches the destination before the manifest, so an available reference registry takes the manifest, and then resolves it. |
| Pushing.PushSucceedsIff | internal/resolution/push.go:66-151 | A push to an available registry succeeds exactly when the route that takes its repository does not deny pushes and has a destination, the principal is a local user to whom a credential is due there, its manifest can be stored, its blobs are staged and no call fails; it names that route, destination and credential. |
| Pushing.DeniedPushDoesNothing | internal/resolution/push.go:66-75 | A push by a route that denies pushes or has no destination publishes and stores nothing. |
| Pushing.NoPushIsRefused | internal/resolution/push.go:101-134 | Without a failing call an available registry refuses nothing. |
| Pushing.FirstObstacleDecides | internal/resolution/push.go:101-185 | The first obstacle decides what a push answers: a manifest that cannot be stored, then the first blob that is not staged or whose call fails, then the call for the manifest. |
| Pushing.DestinationIff | internal/auth/runtime_credentials.go:42-83 | Exactly local users to whom a credential is due at the destination may push, and with that credential. |
| Pushing.PushPublishesAnyStoredBlob | internal/resolution/push.go:167-185 | Who may read the cache plays no part in a push: whatever the bindings and tags are its effect is the same, and when it succeeds the destination holds every named blob as the store has it. |
| Pushing.PushThenPull | internal/resolution/pull.go:128-191 | After a push to the first candidate a pull of that reference returns the pushed manifest from there, when the cache has no answer and the metadata accepts its names. |
| Pushing.FreshTagOutlivesPush | internal/resolution/push.go:187-216 | A tag the cache answers is answered alike after any push. |
| Identity.SQLiteRepository.BootstrapAdmin | internal/metadata/sqlite_repository.go:76-110 | The state and result of bootstrapping, rolled back on every error. |
| Identity.SQLiteRepository.CreateUserWithAudit | internal/metadata/sqlite_security.go:11-39 | The state and result of creating a user as an enabled administrator. |
| Identity.SQLiteRepository.UpdateUserSecurity | internal/metadata/sqlite_security.go:41-101 | The state and result of an update: administrator check, mtime check, last-administrator check, revocations, audit event, or all rolled back. |
| Identity.SQLiteRepository.ChangeUserPassword | internal/metadata/sqlite_security.go:114-160 | The state and result of a password change or recovery, which revokes every session and token of the user. |
| Identity.SQLiteRepository.CreateDockerTokenWithAudit | internal/metadata/sqlite_security.go:179-212 | The state and result of issuing a token to an enabled user. |
| Identity.SQLiteRepository.ListUsers | internal/metadata/sqlite_repository.go:120-138 | Every user's row, once. |
| Tokens.NormalizedIsASet | internal/auth/oci_tokens.go:109-117 | Normalized actions are the known ones that were asked for, each once. |
| Tokens.NormalizedActions | internal/auth/oci_tokens.go:109-117 | The loop computes them. |
| Tokens.IssuedBearerAuthenticates | internal/auth/oci_tokens.go:48-107 | A bearer just issued authenticates for exactly the known actions asked for, as its user or as nobody (and then never to push), and expires within five minutes. |
| Bearers.TokenProvesIff | internal/auth/accounts.go:163-177 | A docker token proves a user by name exactly if both are found, belong together and are good. |
| Bearers.IssuedIff | internal/auth/oci_tokens.go:48-68 | A bearer is issued without credentials for nobody, unless it is to push; with credentials for their user and docker token. |
| Bearers.IssuedBearerIsGoodIff | internal/auth/oci_tokens.go:70-107 | Over any signed set and any later databases and time, an issued bearer authenticates exactly if it is signed, presented for its own repository and an action it was issued for, before its expiry, and its docker token is unrevoked and unexpired and its user enabled, if it has any. |
| Bearers.LoginIff | internal/auth/accounts.go:94-107 | A login succeeds exactly for an enabled user of that name whose stored hash verifies the password. |
| Bearers.SessionNeedsItsCsrf | internal/auth/accounts.go:252-262 | A session with another CSRF token than its own proves nobody. |
| Bearers.TokenLivesAsAsked | internal/auth/accounts.go:135-156 | A docker token is issued for a positive lifetime of at most 90 days, to who asked. |
| Accounts.UpdateTransacts | internal/metadata/sqlite_security.go:41-101 | An update that succeeds replaced the row that had the expected mtime by one with a later mtime, kept its creation time, added one audit event, and revoked everything if asked to; any other changed nothing. |
| Accounts.PasswordTransacts | internal/metadata/sqlite_security.go:114-160 | A password change that succeeds touched only the hash and the mtime of the row it expected and revoked the user's sessions and tokens; any other changed nothing. |
| Authority.UpdateIff | internal/metadata/sqlite_security.go:41-112 | An update is stored exactly if its records are valid, its actor is an enabled administrator in the database it commits to, the row has the expected mtime, no other user has the name and an enabled administrator is left; and what it then stores, revokes and logs. |
| Authority.UpdateRefusal | internal/metadata/sqlite_security.go:41-112 | Why an update is not stored, in the order the code asks. |
| Authority.CreationIff | internal/metadata/sqlite_security.go:11-39 | A user is created exactly if the records are valid, the actor is an enabled administrator in the database it commits to, and id and name are free. |
| Authority.BootstrapIff | internal/metadata/sqlite_repository.go:76-110 | The first user is made exactly if there is none, and it is an enabled administrator. |
| Authority.RekeyingIff | internal/metadata/sqlite_security.go:114-160 | A password is stored exactly if the enabled user changes the own one or it is a recovery, of a row with the expected mtime; all the user's proofs of identity are revoked and nobody else's. |
| Authority.TokenIff | internal/metadata/sqlite_security.go:178-212 | A docker token is stored exactly for an enabled user who asks for it, under an id and a hash nobody has. |
| Authority.SessionIff | internal/metadata/sqlite_security.go:279-297 | A session is stored exactly for a user there is, under an id and a hash nobody has. |
| Authority.OwnRevocationIff | internal/metadata/sqlite_security.go:257-277 | Users revoke their own tokens only; asking for another's does nothing and is no error. |
| Accounts.CommitTransacts | internal/auth/accounts.go:368-464 | The transaction a service call ends in changes nothing, or stores the row it returns and adds one audit event. |
| Accounts.TokenTransacts | internal/metadata/sqlite_security.go:179-212 | Issuing a token adds that token and one audit event, or changes nothing. |
| Accounts.ActionIsSound | internal/auth/accounts.go:350-464 | Every step of every interleaving keeps names and hashes unique, mtimes increasing, revocations permanent, the audit log growing, and each row a call holds a row its user once had. |
| AccountRuns.AnAdministratorRemains | internal/metadata/sqlite_security.go:64-72 | Once a user exists, every reachable state has an enabled administrator and bootstrapping never succeeds again. |
| Authority.UsersChangeByRight | internal/metadata/sqlite_security.go:53-55 | In every run a step that changes or makes a user is the first administrator's, an update or a creation by an enabled administrator of the database it commits to, the user's own change of a password that verified, or the recovery of an administrator's password; and the audit log says whose. |
| Authority.OthersChangeNothing | internal/metadata/sqlite_security.go:103-112 | Under any other actor an update or a creation fails when it commits, and nothing changes. |
| Authority.StoredUsersAreWellFormed | internal/metadata/sqlite_repository.go:76-110 | In every run every stored user has an id, a password hash, one of the two kinds of access and a name of his own. |
| Authority.TokenIsIssuedIff | internal/auth/accounts.go:135-156 | A docker token is issued exactly to an enabled user who asks for it, for a positive lifetime of at most 90 days and under a new id and hash, and is audited as that user's. |
| Authority.TokensComeFromTheirUsers | internal/auth/accounts.go:135-156 | A docker token appears in no other way. |
| Authority.SessionIsOpenedIff | internal/auth/accounts.go:229-250 | A session is opened exactly for the user whose name and password the login had found good and enabled, under a new id and hash, with the two deadlines. |
| Authority.SessionsComeFromLogins | internal/auth/accounts.go:229-250 | A session appears in no other way. |
| Authority.RevocationsAreExact | internal/metadata/sqlite_security.go:246-332 | Each revocation touches exactly the token or session named, or the sessions of the user named. |
| AccountRuns.StaleReadsAreHarmless | internal/auth/accounts.go:385-464 | In every interleaving the rows an update read equal the row it replaces exactly when the expected mtime is not beyond the one read. Then an edit stores the replaced row with the fields it names changed and no other, and the audit action and the revocations are right; a password reset always does. An edit loses no committed change exactly when the row it read agrees with the replaced one on the fields it leaves alone. |
| AccountExamples.GuessedMtimeLosesAnUpdate | internal/auth/accounts.go:421-448 | A run in which an edit guesses the next mtime and puts an old value back over another edit. |
| AccountExamples.GuessedMtimeMayLoseNothing | internal/auth/accounts.go:421-448 | A run in which such a guess loses nothing, because both edits name the same field. |
| AccountRuns.PasswordReadsAreFresh | internal/auth/accounts.go:36-63 | A password is changed or recovered only on the row that was read, and a recovery always finds its user. |
| AccountRuns.IssuedTokenAuthenticates | internal/auth/accounts.go:135-177 | A docker token proves its user exactly while the user is enabled, it is not revoked, and its lifetime is not over. |
| AccountRuns.OpenedSessionAuthenticates | internal/auth/accounts.go:229-287 | A web session with its CSRF token proves its user exactly while the user is enabled, it is not revoked, and neither deadline has passed. |
| AccountRuns.RevocationIsPermanent | internal/metadata/sqlite_security.go:85-92 | After a step that disables or renames a user or changes access or password: the user's sessions and tokens are revoked exactly when the service notices the change, or none were left; it always notices but for an administrator's update whose caller sent an mtime beyond the one it was shown, and then exactly if the record differs in those fields from the row the service read. Once revoked, no session, docker token or bearer token that existed before authenticates in any later state. |
| AccountRuns.ChangeRevokesIff | internal/auth/accounts.go:408-418 | Such a step revokes if and only if it is noticed (or nothing is left to revoke), and unnoticed leaves every token and session as it was. |
| AccountRuns.UnnoticedChangeRevokesNothing | internal/metadata/sqlite_security.go:85-92 | After a change that was not noticed, a docker token that was good goes on proving its user until it expires or the user is disabled. |
| AccountExamples.UnnoticedDemotion | internal/auth/accounts.go:408-418 | A run in which an administrator loses that access again by an edit with a guessed mtime, and a token issued in between stays good. |
| AccountRuns.LoginStandsOnItsRead | internal/auth/accounts.go:94-107 | A session opened after such a change by a login that read the password before it proves its user exactly while the user is enabled, the session is not revoked and its deadlines have not passed. |
| Administration.AdminAccountService.EnabledAdmins | internal/auth/accounts.go:393-406 | The loop over listed users counts the enabled administrators. |
| Administration.AdminAccountService.Update | internal/auth/accounts.go:385-419 | An update that runs alone does what its interleavable steps do. |
| Administration.AdminAccountService.Edit | internal/auth/accounts.go:421-448 | An edit that runs alone does what its interleavable steps do. |
| Administration.AdminAccountService.ResetPassword | internal/auth/accounts.go:450-465 | A reset that runs alone does what its interleavable steps do. |
| Administration.EditComesTo | internal/auth/accounts.go:421-448 | An edit running alone: when it is forbidden, lacks an mtime or a user, leaves no administrator, and otherwise exactly when it is stored and as what. |
| Administration.ResetComesTo | internal/auth/accounts.go:450-464 | A reset running alone stores the new hash in the row it finds and revokes the user's proofs if the hash is another. |
| Administration.CreationComesTo | internal/auth/accounts.go:368-383 | A creation running alone is for enabled administrators, and succeeds exactly for a valid user with a free id and name. |
| Administration.ChangeComesTo | internal/auth/accounts.go:36-63 | A password change running alone succeeds exactly for an enabled user whose current password verifies. |
| Administration.RecoveryComesTo | cmd/regstair/main.go:246-284 | A recovery running alone succeeds exactly for the name of an administrator, enabled or not. |
| Administration.EditsReachEverything | internal/auth/accounts.go:421-448 | An edit can make of one row any other user's fields, and an empty one changes nothing. |
| Administration.LeavesProofsIff | internal/auth/accounts.go:408-416 | An update leaves proofs of identity alone exactly when it touches only display name, e-mail address and times, or enables; and it is audited as the gravest thing it does. |
| Secrets.DecryptsIff | internal/auth/secrets.go:85-131 | What was encrypted decrypts exactly for its record, user and source, and with its key under its id. |
| Secrets.DecryptIff | internal/auth/secrets.go:102-131 | A secret decrypts exactly if it is a version 1 envelope naming a key of the ring whose box that key sealed for the owner under the nonce beside it. |
| Secrets.EncryptIff | internal/auth/secrets.go:85-100 | Encrypting gives the one secret that names the active key and the nonce drawn and decrypts to the plaintext. |
| Secrets.KeyringIff | internal/auth/secrets.go:65-83 | A keyring is accepted exactly if it has the active key, no key without an id and only keys of 32 bytes. |
| Secrets.RenewedOpens | internal/auth/secrets.go:133-140 | A re-encrypted secret opens under the new key alone to what it was, so the command's own check cannot fail. |
| Secrets.CredentialStore.PlanRotation | cmd/regstair/main.go:213-236 | The nested loops over users and credentials produce a replacement for every row, or stop when one cannot be renewed. |
| Secrets.CredentialStore.RotateRegistryCredentialSecrets | internal/metadata/sqlite_security.go:436-488 | The state and result of the rotation transaction, rolled back on every error. |
| Secrets.CredentialStore.RotateCredentialKey | cmd/regstair/main.go:185-244 | The state and result of the whole command. |
| Secrets.RotationNeedsTheSameRows | internal/metadata/sqlite_security.go:463-472 | Equal count and membership of each id hold exactly when the id sets are equal. |
| Secrets.RotationIsAllOrNothing | cmd/regstair/main.go:185-244 | A rotation succeeds exactly when every row read can be renewed and the rows are still the same; then every row opens under the new key alone to its old plaintext, nothing else of it changed and one audit event was added; otherwise nothing changed. |
| Secrets.RotationSaysWhy | cmd/regstair/main.go:185-244 | A failed rotation names its keys, a row that cannot be renewed, another number of rows, other rows, or the commit, in that order. |
| Secrets.RotationKeepsPlaintexts | internal/metadata/sqlite_security.go:436-488 | With saves and deletes in between, and rows read at different moments, a successful rotation leaves each row what it held when it was read. That is what it held last exactly when no save of the row was committed since the read, or the last one sealed the same plaintext. |
| Secrets.LastSaveDecides | internal/metadata/sqlite_security.go:375-413 | What a row holds after any saves and deletes is what its last committed save stored, or what it held before. |
| Secrets.InterleavedSaveIsOverwritten | internal/metadata/sqlite_security.go:466-479 | A save committed between the read and the rotation is overwritten with the plaintext that was read. |
| Secrets.SavedIsFound | internal/metadata/sqlite_security.go:375-413 | A saved credential is the one found for its user and source, opens to what was sealed, and keeps its creation time with a later mtime. |
| Secrets.SavedIff | internal/metadata/sqlite_security.go:375-413 | A credential is saved exactly if it and its audit event are valid, no other row holds the user's place for the source, and a new one has a new id and a user there is; otherwise nothing changes. |
| Secrets.DeletedIff | internal/metadata/sqlite_security.go:415-434 | Deleting takes away the user's row for the source and no other, and is audited even if there was none. |
| RateLimit.FailureLimiter.Allow | internal/security/rate_limit.go:31-47 | The sweep, and the answer: allowed exactly when the retry time is zero. |
| RateLimit.FailureLimiter.Failure | internal/security/rate_limit.go:49-69 | The entries after a failure on each key in turn. |
| RateLimit.FailureLimiter.Success | internal/security/rate_limit.go:71-80 | The entries without the keys of a success. |
| RateLimit.FailureLimiter.Cleanup | internal/security/rate_limit.go:82-89 | The entries without the expired ones. |
| RateLimit.RetryAfterIsLongest | internal/security/rate_limit.go:39-46 | The retry time is the longest block still running on any of the keys. |
| RateLimit.SweepInvisibleIff | internal/security/rate_limit.go:82-89 | Over every run on a clock that does not step back, a limiter that sweeps and one that never does answer alike, exactly when window + block does not overflow or one failure blocks. |
| RateLimit.FailureBound | internal/security/rate_limit.go:49-69 | When block is at least window and each failure follows its Allow, k windows let at most (k + 1) * maxFailures failures through on a key without a success. |
| RateLimit.BlocksNeedFailures | internal/security/rate_limit.go:71-80 | In every run a key is blocked only after maxFailures failures of it since its last success. |
| RateLimit.OneWindowCounts | internal/security/rate_limit.go:58-67 | Failures within one window are counted together, whatever came before it; from the last needed on each starts the block anew. |
| RateLimit.EnoughFailuresBlock | internal/security/rate_limit.go:58-67 | maxFailures failures of a fresh key in one window block it for exactly the block time from the last of them, and one fewer does not. |
| RateLimit.OnlyRecentIsKept | internal/security/rate_limit.go:82-89 | After an Allow every entry left is of a key that failed within window + block. |
| Requests.MemoryRepository.RecordRequestEvent | internal/metadata/repository.go:346-365 | A valid event is appended with the next id and a timestamp. |
| Requests.MemoryRepository.QueryRequestEvents | internal/metadata/repository.go:372-414 | The page is the first part of the sorted listing after the cursor, with a next cursor exactly when more is left. |
| Requests.NextPage | internal/metadata/repository.go:509-517 | The listing after an event's cursor is the rest of the listing after that event. |
| Requests.PagingIsExact | internal/metadata/repository.go:372-414 | Following next from the start visits each event the query's filter matches once, oldest or newest first as asked, and ends, for every log and page size. |
| Requests.PageIsFull | internal/metadata/repository.go:401-412 | A page is full unless the listing ends in it, and names a next one exactly if the listing goes on. |
| Requests.EachFieldNarrows | internal/metadata/repository.go:495-507 | An empty filter matches everything, and each field that is filled in keeps exactly the events with its value, text or time. |
| Requests.TimesPartition | internal/metadata/repository.go:505-506 | The events a filter matches lie either before a time or from it on. |
| Requests.AppendsStayOut | internal/metadata/repository.go:372-414 | Newest-first paging is undisturbed by events appended meanwhile that are not older than the cursor. |
| CursorCodec.DecodeEncoded | internal/admin/server.go:1807-1828 | Unpadded base64url decodes what it encoded (section 5 of RFC 4648). |
| CursorCodec.CursorRoundTrip | internal/admin/server.go:1807-1828 | Decoding an encoded cursor returns it exactly when both numbers are positive, and otherwise is refused. |
| CursorCodec.AcceptedCursors | internal/admin/server.go:1814-1828 | Any text that is accepted has 22 letters and no line break, and gives positive numbers that have an encoding of their own. |
| CursorCodec.KnownTexts | internal/admin/server.go:1807-1828 | The encoding gives the vectors of section 10 of RFC 4648 and the URL alphabet's own letters. |
| Challenge.ParseChallengeParams | internal/registry/http.go:448-496 | The scanning loops end and compute the parse function for every text. |
| Challenge.ParsePrinted | internal/registry/http.go:448-496 | Parsing parameters printed with lower-case token keys and escaped quoted strings returns the map that was printed. |
| Challenge.BareValue | internal/registry/http.go:486-492 | A value without quotes goes up to the next comma, spaces at its ends cut off. |
| Challenge.KeysIgnoreCase | internal/registry/http.go:461 | Keys are read in lower case, however they are written. |
| Challenge.BrokenParamsAreRefused | internal/registry/http.go:458-485 | A quote that is not closed, a parameter without a value and one without a key are refused. |
| Challenge.ScopeRoundTrip | internal/gateway/server.go:306-322 | A printed scope parses to its repository and actions exactly when the repository has no colon. |
| Challenge.ScopeIff | internal/gateway/server.go:306-322 | A scope is accepted exactly if it is empty or printed for a repository without a colon and one or more known actions, and then means those. |
| Challenge.BearerRoundTrip | internal/registry/http.go:436-446 | A printed Bearer challenge parses to its realm, service and scope. |
| Challenge.AnyChallengeIsUnderstood | internal/registry/http.go:436-446 | A challenge is understood exactly if its scheme spells "Bearer" in whatever case and a realm is given; parameters may come in any order and the last value of each counts. |
| Challenge.ChallengeIsTrimmed | internal/registry/http.go:436-440 | Spaces around a challenge do not matter. |
| Challenge.ChallengeRoundTrip | internal/gateway/server.go:279-290 | The challenge the gateway writes is understood as written: the realm is the token endpoint of its host under http or https, the service "regstair", and the scope reads back to repository and actions, when host and repository hold no quote or backslash and the repository no colon. |

## Left out

- HTTP serving, cookies, JSON and YAML decoding, the web interface, dashboards, health probes, backups and TLS identities.
- `parseV2Path`, `requestScope` and upload sessions of the gateway: easy members of the parsing layer.
- `HTTPConnector`'s requests, retries and token fetches; only its challenge parser is modelled. What an upstream
  returns is arbitrary.
- Real cryptography and randomness, as said above; Argon2id is a predicate on the stored hash.
- SQL text, migrations and row scanning. Tables are maps or sequences of rows, and `LIMIT` and `ORDER BY` are written out.
- Request events and provenance that pulls and pushes record: they do not feed back into resolution. Audit details,
  correlation ids and remote addresses of audit events.
- Failures of disk or metadata inside a pull or push, except those the caller can cause: a digest that does not
  match, a stream that breaks, a record the metadata refuses. Failing transactions are modelled for identity and credentials.
- Two pulls at once: a pull is one step over the cache. Interleaved writers are modelled in the store itself.
- A second key rotation between the read and the commit of the first: the changes in between are saves and deletes.
- Changes to the configured sources and routes during a run: a process reads its configuration once.
- 64-bit overflow outside the limiter and the cursor codec: sizes, ids and times are unbounded there.
- Strings are sequences of characters; lower-casing is that of ASCII, and the parsers' bytes are characters.
- Which characters Unicode calls lower case or digits: any classes that hold "a" and no space or delimiter.
- Contents are immutable values, so copies made to avoid aliasing (`copyUser`, `cloneManifest`, zeroed plaintexts) have no counterpart.
- A nil limiter, which allows everything.
- The raw `CreateUser` and `UpdateUser`, `CreateDockerToken` without audit, and the last-used and last-seen times of tokens and sessions: no service calls or changes them.
- Metadata.Repository.ListCacheBindings: lists in the order of the SQL repository; the in-memory one joins the four fields with a zero character, which is the same order for names without one.
- Identity.SQLiteRepository.ListUsers: does not order the rows by user name, because its callers only count or look up.
- Pushing.PushThenPull: takes the destination to be the reference registry, whose answers to the pull are those it gives right after the push.
- Accounts.ActionIsSound: password hashing, which can only fail, happens before a call starts.
