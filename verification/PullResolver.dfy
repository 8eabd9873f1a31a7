// PullResolver of internal/resolution/pull.go over the file store and the metadata repository.

module PullResolvers {
  import opened Text
  import opened Policy
  import opened Content
  import opened Registry
  import opened Metadata
  import opened Tokens
  import opened Resolution

  lemma PutKeepsTemporariesAway(h: Hash, files: Files, digest: string, source: seq<Chunk>, temp: string)
    requires Temporary(temp) && temp !in files
    ensures temp !in Put(h, files, digest, source).0
  {
    TemporaryIsNoBlob(temp);
    if ParseDigest(digest).Success? {
      ParseDigestIff(digest, ParseDigest(digest).value);
    }
  }

  class PullResolver {
    const cfg: Setup
    const store: FileStore
    const metadata: Repository
    var logins: Logins

    constructor (cfg: Setup, store: FileStore, metadata: Repository, logins: Logins)
      ensures this.cfg == cfg && this.store == store && this.metadata == metadata && this.logins == logins
    {
      this.cfg, this.store, this.metadata, this.logins := cfg, store, metadata, logins;
    }

    function View(now: int): State
      reads this, store, metadata
    {
      State(now, store.files, metadata.tags, metadata.bindings, logins)
    }

    method CacheManifest(m: Manifest, replies: nat -> BlobReply, temp: string) returns (stored: bool)
      requires store.hash == cfg.hash && Temporary(temp) && temp !in store.files
      modifies store
      ensures (store.files, stored) == ManifestCached(cfg.hash, old(store.files), m, replies)
    {
      PutKeepsTemporariesAway(cfg.hash, store.files, m.digest, [Chunk(m.content)], temp);
      var put := store.PutBlob(m.digest, [Chunk(m.content)], temp);
      if put.Failure? { return false; }
      for i := 0 to |m.blobs|
        invariant temp !in store.files
        invariant ManifestCached(cfg.hash, old(store.files), m, replies) ==
                    BlobsCached(cfg.hash, store.files, m.blobs, replies, i)
      {
        var reply := replies(i);
        if reply.NotOpened? { return false; }
        PutKeepsTemporariesAway(cfg.hash, store.files, m.blobs[i], reply.chunks, temp);
        put := store.PutBlob(m.blobs[i], reply.chunks, temp);
        if put.Failure? || reply.NotClosed? { return false; }
      }
      stored := true;
    }

    method RecordCacheBindings(p: Principal, d: PullDecision, source: string, m: Manifest, credential: Credential,
                               now: int)
      returns (r: Result<(), RecordError>)
      modifies metadata`bindings
      ensures var after := Recorded(old(metadata.bindings), NewBindings(d, source, m, credential, p), now);
              && (r.Success? <==> after.Success?)
              && metadata.bindings == if r.Success? then after.value else old(metadata.bindings)
    {
      var access, user := Challenge, "";
      if credential == UserCredential {
        access, user := CurrentUserRequired, LocalID(p);
      } else if credential == ProxyCredential {
        access := Proxy;
      }
      var key := Key(d.logicalRepository, d.routeName, source, m.digest, m.digest, access, user);
      var added := [Binding(key, d.physicalRepository, ManifestObject, 0, 0)];
      for i := 0 to |m.blobs|
        invariant added == [NewBinding(d, source, m, credential, p, m.digest, ManifestObject)]
                           + BlobBindings(d, source, m, credential, p, m.blobs[..i])
      {
        added := added + [Binding(key.(digest := m.blobs[i]), d.physicalRepository, BlobObject, 0, 0)];
      }
      assert m.blobs[..|m.blobs|] == m.blobs;
      r := metadata.RecordCacheBindings(added, now);
    }

    method AuthorizeCachedObject(p: Principal, d: PullDecision, digest: string, now: int) returns (r: Grant)
      ensures r == Resolution.AuthorizeCachedObject(cfg, View(now), p, d, digest)
    {
      var rows := metadata.ListCacheBindings(d.logicalRepository, d.routeName, digest);
      var denied: Option<SourceError> := None;
      assert rows[0..] == rows;
      for i := 0 to |rows|
        invariant Scan(cfg, logins, p, d.candidateSources, rows, None) ==
                    Scan(cfg, logins, p, d.candidateSources, rows[i..], denied)
      {
        assert rows[i..][1..] == rows[i + 1..];
        var b := rows[i];
        if b.key.source !in d.candidateSources { continue; }
        if b.key.access == Challenge { return Granted(b, AnonymousCredential); }
        if !cfg.provider {
          denied := Some(CredentialRequired);
          continue;
        }
        match AuthorizeCache(cfg, logins, p, b.key, PullOperation) {
          case Success(credential) => return Granted(b, credential);
          case Failure(e) => denied := Some(e);
        }
      }
      r := if denied == None then Unbound else Denied(denied.value);
    }

    method TryCache(p: Principal, d: PullDecision, now: int) returns (r: CacheAnswer)
      ensures r == Resolution.TryCache(cfg, View(now), p, d)
    {
      if IsDigest(d.reference) {
        var grant := AuthorizeCachedObject(p, d, d.reference, now);
        match grant {
          case Denied(e) => return Some(Failure(CacheRefused(e)));
          case Unbound => return None;
          case Granted(_, credential) =>
            return Cached(d, CachedManifest(cfg, store.files, d.reference, "", 0), credential);
        }
      }
      if (d.logicalRepository, d.reference) !in metadata.tags { return None; }
      var mapping := metadata.tags[(d.logicalRepository, d.reference)];
      if !IsFresh(mapping, now) { return None; }
      var grant := AuthorizeCachedObject(p, d, mapping.digest, now);
      match grant {
        case Denied(e) => return Some(Failure(CacheRefused(e)));
        case Unbound => return None;
        case Granted(b, credential) =>
          if b.key.source != mapping.source || b.key.manifest != mapping.digest { return None; }
          var found := CachedManifest(cfg, store.files, mapping.digest, mapping.mediaType, mapping.size);
          return Cached(d, Relabelled(found, mapping.blobs), credential);
      }
    }

    method Keep(p: Principal, d: PullDecision, i: nat, credential: Credential, m: Manifest, up: Upstream, now: int,
                temp: string)
      returns (r: Result<PullResult, PullError>)
      requires i < |d.candidateSources| && store.hash == cfg.hash && Temporary(temp) && temp !in store.files
      modifies store, metadata
      ensures (View(now), r) == Retained(cfg, old(View(now)), p, d, i, credential, m, up)
    {
      var source := d.candidateSources[i];
      var stored := CacheManifest(m, up.blob, temp);
      if !stored { return Failure(CacheFailed); }
      var recorded := RecordCacheBindings(p, d, source, m, credential, now);
      if recorded.Failure? { return Failure(BadRecord); }
      if !IsDigest(d.reference) {
        var mapped := metadata.RecordTagMapping(d.logicalRepository, d.reference,
                                                NewMapping(m, source, d.routeName, now), now);
        if mapped.Failure? { return Failure(BadRecord); }
      }
      r := Success(PullResult(m, source, d.routeName, i > 0, credential));
    }

    // The loop over the candidates, up to the one that has the manifest.
    method AskSources(p: Principal, d: PullDecision, up: Upstream) returns (search: Search)
      ensures search == SearchFrom(cfg, logins, p, d.candidateSources, up, 0, NothingTried)
    {
      var cause := NothingTried;
      ghost var whole := SearchFrom(cfg, logins, p, d.candidateSources, up, 0, NothingTried);
      for i := 0 to |d.candidateSources|
        invariant whole == SearchFrom(cfg, logins, p, d.candidateSources, up, i, cause)
      {
        var source := d.candidateSources[i];
        var connected, credential := source in cfg.connectors, AnonymousCredential;
        if cfg.provider {
          match ConnectorFor(cfg, logins, p, source, PullOperation) {
            case Failure(e) =>
              cause := NotOffered(e);
              if e == CredentialRequired || e == CredentialUnavailable
                || e == Forbidden { return Search(i + 1, None, cause); }
              continue;
            case Success(found) => connected, credential := found.0, found.1;
          }
        }
        if !connected {
          cause := NoConnector;
          continue;
        }
        match up.manifest(i) {
          case Unauthenticated => return Search(i + 1, None, SourceUnauthenticated);
          case NoManifest => cause := NoSuchManifest;
          case Down => cause := SourceDown;
          case Unauthorized => cause := UpstreamUnauthorized;
          case Broke => cause := UpstreamBroke;
          case Found(m) => return Search(i + 1, Some((credential, m)), cause);
        }
      }
      search := Search(|d.candidateSources|, None, cause);
    }

    method Settle(p: Principal, d: PullDecision, up: Upstream, search: Search, now: int, temp: string)
      returns (r: Result<PullResult, PullError>)
      requires search.served.Some? ==> 0 < search.asked <= |d.candidateSources|
      requires store.hash == cfg.hash && Temporary(temp) && temp !in store.files
      modifies store, metadata
      ensures (View(now), r) == Settled(cfg, old(View(now)), p, d, up, search)
    {
      if search.served == None { return Failure(FinalError(search.cause)); }
      var (credential, m) := search.served.value;
      r := Keep(p, d, search.asked - 1, credential, m, up, now, temp);
    }

    method Pull(request: PullRequest, up: Upstream, now: int, temp: string) returns (r: Result<PullResult, PullError>)
      requires store.hash == cfg.hash && Temporary(temp) && temp !in store.files
      modifies store, metadata
      ensures (View(now), r) == Resolution.Pull(cfg, old(View(now)), request, up)
    {
      var decision := cfg.engine.ResolvePull(request.repository, request.reference);
      if decision.Failure? { return Failure(Refused(decision.error)); }
      var d, p := decision.value, request.principal;
      var answer := TryCache(p, d, now);
      if answer.Some? { return answer.value; }
      var search := AskSources(p, d, up);
      r := Settle(p, d, up, search, now, temp);
    }

    method OpenBlob(repository: string, digest: string, p: Principal, now: int)
      returns (r: Result<(Bytes, Credential), PullError>)
      ensures r == Resolution.OpenBlob(cfg, View(now), repository, digest, p)
    {
      var decision := cfg.engine.ResolvePull(repository, digest);
      if decision.Failure? { return Failure(Refused(decision.error)); }
      var grant := AuthorizeCachedObject(p, decision.value, digest, now);
      match grant {
        case Denied(e) => return Failure(CacheRefused(e));
        case Unbound => return Failure(NothingFound);
        case Granted(_, credential) =>
          if ParseDigest(digest).Failure? { return Failure(UnusableDigest); }
          var body := Open(store.files, digest);
          if body == None { return Failure(NothingFound); }
          return Success((body.value, credential));
      }
    }
  }
}
