// internal/resolution/pull.go with internal/auth/runtime_credentials.go: a pull goes through policy, cache
// and the ordered upstream sources, and leaves what it fetched in the store and the metadata.
//
// What the upstream answers in the course of one call is a parameter of the call.

module Resolution {
  import opened Text
  import opened Policy
  import opened Content
  import opened Registry
  import opened Metadata
  import opened Tokens

  datatype Strategy = ChallengeStrategy | ProxyStrategy | CurrentUserStrategy

  datatype SourceConfig = SourceConfig(enabled: bool, strategy: Strategy)

  // `provider` says whether connectors depend on the principal; without it every source is anonymous.
  datatype Setup = Setup(engine: Engine, sources: map<string, SourceConfig>, connectors: set<string>, provider: bool,
                         hash: Hash, decode: Decoder)

  // Whether each user is enabled, and whether each user's credential for a source can be used.
  datatype Logins = Logins(users: map<string, bool>, credentials: map<(string, string), bool>)

  datatype State = State(now: int, files: Files, tags: Tags, bindings: seq<Binding>, logins: Logins)

  datatype Operation = PullOperation | PushOperation

  datatype Credential = AnonymousCredential | ProxyCredential | UserCredential

  datatype SourceError = CredentialRequired | CredentialUnavailable | Forbidden | SourceDisabled

  datatype PullError = Refused(PolicyError) | CacheRefused(SourceError) | CacheFailed | BadRecord | UnusableDigest
                     | Unresolved(Cause) | NothingFound

  datatype PullRequest = PullRequest(repository: string, reference: string, principal: Principal)

  datatype PullResult = PullResult(manifest: Manifest, source: string, route: string, fallbackUsed: bool,
                                   credential: Credential)

  const SOURCE_CACHE := "local-cache"
  const FRESH_FOR: int := 24 * 60 * 60 * 1_000_000_000

  function LocalID(p: Principal): string { if p.LocalUser? then p.id else "" }

  predicate IsDigest(reference: string) { HasPrefix(reference, "sha256:") }

  // ---------------------------------------------------------------- who may use a source

  predicate IsEnabled(logins: Logins, id: string) { id in logins.users && logins.users[id] }

  /** ConnectorFor: whether there is a connector, and whose credential it uses. */
  function ConnectorFor(cfg: Setup, logins: Logins, p: Principal, source: string,
                        op: Operation): Result<(bool, Credential), SourceError> {
    var id := LocalID(p);
    if source !in cfg.sources || !cfg.sources[source].enabled then Failure(SourceDisabled)
    else
      var strategy := cfg.sources[source].strategy;
      if id == "" then
        if op == PullOperation
          && strategy == ChallengeStrategy then Success((source in cfg.connectors, AnonymousCredential))
        else Failure(CredentialRequired)
      else if !IsEnabled(logins, id) then Failure(Forbidden)
      else if strategy == ProxyStrategy then Success((source in cfg.connectors, ProxyCredential))
      else if (id, source) !in logins.credentials then
        if strategy == ChallengeStrategy
          then Success((source in cfg.connectors, AnonymousCredential)) else Failure(CredentialRequired)
      else if logins.credentials[(id, source)] then Success((true, UserCredential))
      else Failure(CredentialUnavailable)
  }

  function AuthorizeCache(cfg: Setup, logins: Logins, p: Principal, key: Key,
                          op: Operation): Result<Credential, SourceError> {
    var id := LocalID(p);
    if key.source !in cfg.sources || !cfg.sources[key.source].enabled then Failure(Forbidden)
    else if key.access == Challenge && op == PullOperation then Success(AnonymousCredential)
    else if id == "" then Failure(CredentialRequired)
    else if key.access == CurrentUserRequired && id != key.user then Failure(Forbidden)
    else if !IsEnabled(logins, id) then Failure(Forbidden)
    else if key.access == Proxy then Success(ProxyCredential)
    else if (id, key.source) !in logins.credentials then Failure(CredentialRequired)
    else Success(UserCredential)
  }

  // ---------------------------------------------------------------- the cache

  datatype Grant = Granted(binding: Binding, credential: Credential) | Denied(error: SourceError) | Unbound

  // What a binding of a candidate source allows a principal.
  function Allows(cfg: Setup, logins: Logins, p: Principal, key: Key): Result<Credential, SourceError> {
    if key.access == Challenge then Success(AnonymousCredential)
    else if !cfg.provider then Failure(CredentialRequired)
    else AuthorizeCache(cfg, logins, p, key, PullOperation)
  }

  // The first binding that allows the principal; failing that, the last denial.
  function Scan(cfg: Setup, logins: Logins, p: Principal, candidates: seq<string>, rows: seq<Binding>,
                denied: Option<SourceError>): Grant {
    if rows == [] then (if denied == None then Unbound else Denied(denied.value))
    else if rows[0].key.source !in candidates then Scan(cfg, logins, p, candidates, rows[1..], denied)
    else
      match Allows(cfg, logins, p, rows[0].key)
      case Success(credential) => Granted(rows[0], credential)
      case Failure(e) => Scan(cfg, logins, p, candidates, rows[1..], Some(e))
  }

  function AuthorizeCachedObject(cfg: Setup, st: State, p: Principal, d: PullDecision, digest: string): Grant {
    Scan(cfg, st.logins, p, d.candidateSources, BindingsOf(st.bindings, d.logicalRepository, d.routeName, digest), None)
  }

  function CachedManifest(cfg: Setup, files: Files, digest: string, mediaType: string,
                          size: int): Result<Option<Manifest>, PullError> {
    if ParseDigest(digest).Failure? then Failure(UnusableDigest)
    else
      match Open(files, digest)
      case None => Success(None)
      case Some(body) =>
        var length := if size == 0 then |body| else size;
        match ParseManifest(cfg.hash, cfg.decode, body)
        case None => Success(Some(Manifest(mediaType, digest, length, body, [])))
        case Some(parsed) =>
          Success(Some(Manifest(if mediaType == ""
                                then parsed.mediaType else mediaType, digest, length, body, parsed.blobs)))
  }

  predicate IsFresh(mapping: TagMapping, now: int) { mapping.freshUntil == 0 || now <= mapping.freshUntil }

  // Some(r) ends the pull with r; None goes on to the sources.
  type CacheAnswer = Option<Result<PullResult, PullError>>

  function Cached(d: PullDecision, found: Result<Option<Manifest>, PullError>, credential: Credential): CacheAnswer {
    match found
    case Failure(e) => Some(Failure(e))
    case Success(None) => None
    case Success(Some(m)) => Some(Success(PullResult(m, SOURCE_CACHE, d.routeName, false, credential)))
  }

  function TryDigest(cfg: Setup, st: State, p: Principal, d: PullDecision): CacheAnswer {
    match AuthorizeCachedObject(cfg, st, p, d, d.reference)
    case Denied(e) => Some(Failure(CacheRefused(e)))
    case Unbound => None
    case Granted(_, credential) => Cached(d, CachedManifest(cfg, st.files, d.reference, "", 0), credential)
  }

  function Relabelled(found: Result<Option<Manifest>, PullError>,
                      blobs: seq<string>): Result<Option<Manifest>, PullError> {
    match found
    case Success(Some(m)) => Success(Some(m.(blobs := blobs)))
    case _ => found
  }

  function TryTag(cfg: Setup, st: State, p: Principal, d: PullDecision): CacheAnswer {
    if (d.logicalRepository, d.reference) !in st.tags then None
    else
      var mapping := st.tags[(d.logicalRepository, d.reference)];
      if !IsFresh(mapping, st.now) then None
      else
        match AuthorizeCachedObject(cfg, st, p, d, mapping.digest)
        case Denied(e) => Some(Failure(CacheRefused(e)))
        case Unbound => None
        case Granted(b, credential) =>
          if b.key.source != mapping.source || b.key.manifest != mapping.digest then None
          else
            var found := CachedManifest(cfg, st.files, mapping.digest, mapping.mediaType, mapping.size);
            Cached(d, Relabelled(found, mapping.blobs), credential)
  }

  function TryCache(cfg: Setup, st: State, p: Principal, d: PullDecision): CacheAnswer {
    if IsDigest(d.reference) then TryDigest(cfg, st, p, d) else TryTag(cfg, st, p, d)
  }

  // ---------------------------------------------------------------- the sources

  datatype Reply = Found(manifest: Manifest) | NoManifest | Down | Unauthenticated | Unauthorized | Broke

  datatype BlobReply = Streamed(chunks: seq<Chunk>) | NotOpened | NotClosed(chunks: seq<Chunk>)

  // What the candidate with this index answers, and how the manifest's blob with this index streams.
  datatype Upstream = Upstream(manifest: nat -> Reply, blob: nat -> BlobReply)

  datatype Cause = NothingTried | NoConnector | SourceDown | SourceUnauthenticated | NotOffered(error: SourceError)
                 | NoSuchManifest | UpstreamUnauthorized | UpstreamBroke

  datatype Turn = Serves(credential: Credential, manifest: Manifest) | Stops(cause: Cause) | Moves(cause: Cause)

  function Answer(connected: bool, credential: Credential, reply: Reply): Turn {
    if !connected then Moves(NoConnector)
    else
      match reply
      case Found(m) => Serves(credential, m)
      case Unauthenticated => Stops(SourceUnauthenticated)
      case NoManifest => Moves(NoSuchManifest)
      case Down => Moves(SourceDown)
      case Unauthorized => Moves(UpstreamUnauthorized)
      case Broke => Moves(UpstreamBroke)
  }

  function TurnOf(cfg: Setup, logins: Logins, p: Principal, source: string, reply: Reply): Turn {
    if !cfg.provider then Answer(source in cfg.connectors, AnonymousCredential, reply)
    else
      match ConnectorFor(cfg, logins, p, source, PullOperation)
      case Failure(e) => if e == SourceDisabled then Moves(NotOffered(e)) else Stops(NotOffered(e))
      case Success(found) => Answer(found.0, found.1, reply)
  }

  // `asked` sources were tried; `served` is what the last of them had, if it had the manifest.
  datatype Search = Search(asked: nat, served: Option<(Credential, Manifest)>, cause: Cause)

  function SearchFrom(cfg: Setup, logins: Logins, p: Principal, sources: seq<string>, up: Upstream, i: nat,
                      cause: Cause): (r: Search)
    requires i <= |sources|
    ensures i <= r.asked <= |sources| && (r.served.Some? ==> i < r.asked)
    decreases |sources| - i
  {
    if i == |sources| then Search(i, None, cause)
    else
      match TurnOf(cfg, logins, p, sources[i], up.manifest(i))
      case Serves(credential, m) => Search(i + 1, Some((credential, m)), cause)
      case Stops(c) => Search(i + 1, None, c)
      case Moves(c) => SearchFrom(cfg, logins, p, sources, up, i + 1, c)
  }

  function FinalError(cause: Cause): PullError {
    if cause in {NoConnector, SourceDown, SourceUnauthenticated, UpstreamUnauthorized} then Unresolved(cause)
    else if cause.NotOffered? && cause.error != SourceDisabled then Unresolved(cause)
    else NothingFound
  }

  // ---------------------------------------------------------------- keeping what was fetched

  function BlobsCached(h: Hash, files: Files, digests: seq<string>, replies: nat -> BlobReply, i: nat): (Files, bool)
    requires i <= |digests|
    decreases |digests| - i
  {
    if i == |digests| then (files, true)
    else if replies(i).NotOpened? then (files, false)
    else
      var (after, put) := Put(h, files, digests[i], replies(i).chunks);
      if put.Failure? || replies(i).NotClosed? then (after, false) else BlobsCached(h, after, digests, replies, i + 1)
  }

  function ManifestCached(h: Hash, files: Files, m: Manifest, replies: nat -> BlobReply): (Files, bool) {
    var (after, put) := Put(h, files, m.digest, [Chunk(m.content)]);
    if put.Failure? then (after, false) else BlobsCached(h, after, m.blobs, replies, 0)
  }

  function AccessOf(credential: Credential): Access {
    match credential
    case AnonymousCredential => Challenge
    case ProxyCredential => Proxy
    case UserCredential => CurrentUserRequired
  }

  function NewBinding(d: PullDecision, source: string, m: Manifest, credential: Credential, p: Principal,
                      digest: string, kind: Kind): Binding {
    var user := if credential == UserCredential then LocalID(p) else "";
    Binding(Key(d.logicalRepository, d.routeName, source, m.digest, digest, AccessOf(credential), user),
            d.physicalRepository, kind, 0, 0)
  }

  function BlobBindings(d: PullDecision, source: string, m: Manifest, credential: Credential, p: Principal,
                        blobs: seq<string>): seq<Binding> {
    seq(|blobs|, i requires 0 <= i < |blobs| => NewBinding(d, source, m, credential, p, blobs[i], BlobObject))
  }

  function NewBindings(d: PullDecision, source: string, m: Manifest, credential: Credential,
                       p: Principal): seq<Binding> {
    [NewBinding(d, source, m, credential, p, m.digest, ManifestObject)]
    + BlobBindings(d, source, m, credential, p, m.blobs)
  }

  function NewMapping(m: Manifest, source: string, route: string, now: int): TagMapping {
    TagMapping(m.digest, m.mediaType, m.size, m.blobs, source, route, now, now + FRESH_FOR)
  }

  // What a pull served by candidate `i` leaves behind: the store, then the bindings, then the tag.
  function Retained(cfg: Setup, st: State, p: Principal, d: PullDecision, i: nat, credential: Credential, m: Manifest,
                    up: Upstream)
    : (State, Result<PullResult, PullError>)
    requires i < |d.candidateSources|
  {
    var source := d.candidateSources[i];
    var (files, stored) := ManifestCached(cfg.hash, st.files, m, up.blob);
    var afterStore := st.(files := files);
    if !stored then (afterStore, Failure(CacheFailed))
    else
      match Recorded(st.bindings, NewBindings(d, source, m, credential, p), st.now)
      case Failure(_) => (afterStore, Failure(BadRecord))
      case Success(rows) =>
        var bound := afterStore.(bindings := rows);
        var result := PullResult(m, source, d.routeName, i > 0, credential);
        if IsDigest(d.reference) then (bound, Success(result))
        else
          match MappingRecorded(st.tags, d.logicalRepository, d.reference, NewMapping(m, source, d.routeName, st.now),
                                st.now)
          case Failure(_) => (bound, Failure(BadRecord))
          case Success(tags) => (bound.(tags := tags), Success(result))
  }

  // What becomes of a pull after its search.
  function Settled(cfg: Setup, st: State, p: Principal, d: PullDecision, up: Upstream,
                   search: Search): (State, Result<PullResult, PullError>)
    requires search.served.Some? ==> 0 < search.asked <= |d.candidateSources|
  {
    match search.served
    case Some(found) => Retained(cfg, st, p, d, search.asked - 1, found.0, found.1, up)
    case None => (st, Failure(FinalError(search.cause)))
  }

  function FromSources(cfg: Setup, st: State, p: Principal, d: PullDecision,
                       up: Upstream): (State, Result<PullResult, PullError>) {
    Settled(cfg, st, p, d, up, SearchFrom(cfg, st.logins, p, d.candidateSources, up, 0, NothingTried))
  }

  function Pull(cfg: Setup, st: State, request: PullRequest, up: Upstream): (State, Result<PullResult, PullError>) {
    match cfg.engine.ResolvePull(request.repository, request.reference)
    case Failure(e) => (st, Failure(Refused(e)))
    case Success(d) =>
      match TryCache(cfg, st, request.principal, d)
      case Some(answer) => (st, answer)
      case None => FromSources(cfg, st, request.principal, d, up)
  }

  /** PullResolver.OpenBlob: the blob, and under whose credential it was fetched. */
  function OpenBlob(cfg: Setup, st: State, repository: string, digest: string,
                    p: Principal): Result<(Bytes, Credential), PullError> {
    match cfg.engine.ResolvePull(repository, digest)
    case Failure(e) => Failure(Refused(e))
    case Success(d) =>
      match AuthorizeCachedObject(cfg, st, p, d, digest)
      case Denied(e) => Failure(CacheRefused(e))
      case Unbound => Failure(NothingFound)
      case Granted(_, credential) =>
        if ParseDigest(digest).Failure? then Failure(UnusableDigest)
        else
          match Open(st.files, digest)
          case None => Failure(NothingFound)
          case Some(body) => Success((body, credential))
  }
}
