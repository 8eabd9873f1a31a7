// What the cache promises over every run: who may read it, what a tag answers, and that a pull can be finished.

module CacheGuarantees {
  import opened Text
  import opened Policy
  import opened Content
  import opened Registry
  import opened Metadata
  import opened Tokens
  import opened Resolution
  import opened Access
  import opened Pushing
  import opened CacheRuns

  // ---------------------------------------------------------------- who may read the cache

  // How a fetch was paid for, by the strategy configured for its source and what its principal held at the time.
  predicate ByProxy(cfg: Setup, e: Fetch) {
    && cfg.provider && Available(cfg, e.Source()) && cfg.sources[e.Source()].strategy == ProxyStrategy
    && EnabledUser(e.logins, e.p)
  }

  predicate Personally(cfg: Setup, e: Fetch) {
    && cfg.provider && Available(cfg, e.Source()) && cfg.sources[e.Source()].strategy != ProxyStrategy
    && EnabledUser(e.logins, e.p)
    && HoldsCredential(e.logins, e.p, e.Source()) && e.logins.credentials[(LocalID(e.p), e.Source())]
  }

  predicate Openly(cfg: Setup, e: Fetch) {
    cfg.provider ==>
      && Available(cfg, e.Source()) && cfg.sources[e.Source()].strategy == ChallengeStrategy
      && (LocalID(e.p) == "" || (EnabledUser(e.logins, e.p) && !HoldsCredential(e.logins, e.p, e.Source())))
  }

  /** A fetch that happened was paid for in one of these ways, and its credential says in which. */
  lemma CredentialIsDue(cfg: Setup, now: int, e: Fetch)
    requires Happened(cfg, now, e)
    ensures e.credential == ProxyCredential <==> ByProxy(cfg, e)
    ensures e.credential == UserCredential <==> Personally(cfg, e)
    ensures e.credential == AnonymousCredential <==> Openly(cfg, e)
  {
    ConnectorIff(cfg, e.logins, e.p, e.Source(), PullOperation, e.credential);
  }

  // Whether a principal may have what a fetch brought: anybody if it was fetched openly, any enabled user if through
  // a proxy source, else only the user whose credential fetched it, while enabled and while one is still held.
  predicate Entitled(cfg: Setup, logins: Logins, p: Principal, e: Fetch) {
    || Openly(cfg, e)
    || (ByProxy(cfg, e) && EnabledUser(logins, p))
    || (Personally(cfg, e) && EnabledUser(logins, p) && LocalID(p) == LocalID(e.p)
        && HoldsCredential(logins, p, e.Source()))
  }

  lemma AllowsIffEntitled(cfg: Setup, now: int, logins: Logins, p: Principal, e: Fetch, digest: string)
    requires Happened(cfg, now, e)
    ensures Allows(cfg, logins, p, e.KeyOf(digest)).Success? <==> Entitled(cfg, logins, p, e)
    ensures Allows(cfg, logins, p, e.KeyOf(digest)).Success? ==>
              Allows(cfg, logins, p, e.KeyOf(digest)).value == e.credential
  {
    CredentialIsDue(cfg, now, e);
  }

  lemma {:induction false} ScanGrants(cfg: Setup, logins: Logins, p: Principal, candidates: seq<string>,
                                      rows: seq<Binding>, denied: Option<SourceError>)
    ensures var g := Scan(cfg, logins, p, candidates, rows, denied);
            && (g.Granted? ==> g.binding in rows)
            && (g.Granted? <==>
                exists b :: b in rows && b.key.source in candidates && Allows(cfg, logins, p, b.key).Success?)
            && (g.Granted? ==>
                g.binding.key.source in candidates && Allows(cfg, logins, p, g.binding.key) == Success(g.credential))
  {
    if rows != [] {
      assert rows == [rows[0]] + rows[1..];
      var allowed := Allows(cfg, logins, p, rows[0].key);
      if rows[0].key.source !in candidates {
        ScanGrants(cfg, logins, p, candidates, rows[1..], denied);
      } else if allowed.Failure? {
        ScanGrants(cfg, logins, p, candidates, rows[1..], Some(allowed.error));
      }
    }
  }

  /** The grant is the first row of a candidate that allows; a denial is that of the last candidate's row. */
  lemma {:induction false} ScanKeepsOrder(cfg: Setup, logins: Logins, p: Principal, candidates: seq<string>,
                                          rows: seq<Binding>, denied: Option<SourceError>) returns (k: nat)
    ensures var g := Scan(cfg, logins, p, candidates, rows, denied);
            && k <= |rows| && (g.Granted? ==> k < |rows| && rows[k] == g.binding)
            && (g.Granted? ==>
                  forall j :: 0 <= j < k && rows[j].key.source in candidates ==>
                    Allows(cfg, logins, p, rows[j].key).Failure?)
            && (!g.Granted? ==> forall j :: k < j < |rows| ==> rows[j].key.source !in candidates)
            && (!g.Granted? && k < |rows| ==>
                  rows[k].key.source in candidates && g.Denied?
                    && Allows(cfg, logins, p, rows[k].key) == Failure(g.error))
            && (!g.Granted? && k == |rows| ==>
                  && (forall j :: 0 <= j < |rows| ==> rows[j].key.source !in candidates)
                  && g == if denied == None then Unbound else Denied(denied.value))
  {
    k := 0;
    if rows != [] {
      var rest := rows[1..];
      assert forall j :: 1 <= j < |rows| ==> rows[j] == rest[j - 1];
      var allowed := Allows(cfg, logins, p, rows[0].key);
      if rows[0].key.source !in candidates {
        var l := ScanKeepsOrder(cfg, logins, p, candidates, rest, denied);
        k := l + 1;
      } else if allowed.Failure? {
        var l := ScanKeepsOrder(cfg, logins, p, candidates, rest, Some(allowed.error));
        k := if Scan(cfg, logins, p, candidates, rest, Some(allowed.error)).Granted? || l < |rest| then l + 1 else 0;
      }
    }
  }

  // Whether a fetch accounts for serving an object to a principal under a decision.
  predicate Covers(cfg: Setup, logins: Logins, p: Principal, d: PullDecision, digest: string, e: Fetch) {
    && e.d.logicalRepository == d.logicalRepository && e.d.routeName == d.routeName && e.Source() in d.candidateSources
    && e.Has(digest) && Entitled(cfg, logins, p, e)
  }

  lemma CoveredIsGranted(cfg: Setup, sys: System, p: Principal, d: PullDecision, digest: string, e: Fetch)
    requires Coherent(cfg, sys) && e in sys.log && Covers(cfg, sys.st.logins, p, d, digest, e)
    ensures AuthorizeCachedObject(cfg, sys.st, p, d, digest).Granted?
  {
    var rows := BindingsOf(sys.st.bindings, d.logicalRepository, d.routeName, digest);
    var key := e.KeyOf(digest);
    assert e.Binds(key) && Bound(sys.log, key) && HasKey(sys.st.bindings, key);
    var b :| b in sys.st.bindings && b.key == key;
    ListingIsExact(sys.st.bindings, d.logicalRepository, d.routeName, digest);
    assert b in rows;
    AllowsIffEntitled(cfg, sys.st.now, sys.st.logins, p, e, digest);
    ScanGrants(cfg, sys.st.logins, p, d.candidateSources, rows, None);
  }

  lemma GrantIsCovered(cfg: Setup, sys: System, p: Principal, d: PullDecision, digest: string) returns (e: Fetch)
    requires Coherent(cfg, sys) && AuthorizeCachedObject(cfg, sys.st, p, d, digest).Granted?
    ensures e in sys.log && Covers(cfg, sys.st.logins, p, d, digest, e)
    ensures AuthorizeCachedObject(cfg, sys.st, p, d, digest).binding.key == e.KeyOf(digest)
    ensures AuthorizeCachedObject(cfg, sys.st, p, d, digest).credential == e.credential
  {
    var rows := BindingsOf(sys.st.bindings, d.logicalRepository, d.routeName, digest);
    ScanGrants(cfg, sys.st.logins, p, d.candidateSources, rows, None);
    ListingIsExact(sys.st.bindings, d.logicalRepository, d.routeName, digest);
    var b := AuthorizeCachedObject(cfg, sys.st, p, d, digest).binding;
    assert HasKey(sys.st.bindings, b.key) && Bound(sys.log, b.key);
    e :| e in sys.log && e.Binds(b.key);
    AllowsIffEntitled(cfg, sys.st.now, sys.st.logins, p, e, digest);
  }

  ghost predicate Reachable(cfg: Setup, now: int, logins: Logins, actions: seq<Action>, sys: System) {
    now > 0 && Executes(cfg, Start(now, logins), actions, sys)
  }

  lemma ReachableIsCoherent(cfg: Setup, now: int, logins: Logins, actions: seq<Action>, sys: System)
    requires Reachable(cfg, now, logins, actions, sys)
    ensures Coherent(cfg, sys)
  {
    StartIsCoherent(cfg, now, logins);
    RunIsCoherent(cfg, Start(now, logins), actions, sys);
  }

  // Whether a candidate's fetch bound the object under a decision, whoever may have it.
  predicate Bears(d: PullDecision, digest: string, e: Fetch) {
    e.d.logicalRepository == d.logicalRepository && e.d.routeName == d.routeName && e.Source() in d.candidateSources
      && e.Has(digest)
  }

  // The rows of an object that a candidate's fetch left, and the fetch that left one.
  lemma BornIsListed(cfg: Setup, sys: System, d: PullDecision, digest: string, e: Fetch) returns (b: Binding)
    requires Coherent(cfg, sys) && e in sys.log && Bears(d, digest, e)
    ensures b in BindingsOf(sys.st.bindings, d.logicalRepository, d.routeName, digest)
    ensures b.key.source in d.candidateSources
  {
    var key := e.KeyOf(digest);
    assert e.Binds(key) && Bound(sys.log, key) && HasKey(sys.st.bindings, key);
    b :| b in sys.st.bindings && b.key == key;
    ListingIsExact(sys.st.bindings, d.logicalRepository, d.routeName, digest);
  }

  lemma ListedIsBorn(cfg: Setup, sys: System, d: PullDecision, digest: string, b: Binding) returns (e: Fetch)
    requires Coherent(cfg, sys) && b.key.source in d.candidateSources
    requires b in BindingsOf(sys.st.bindings, d.logicalRepository, d.routeName, digest)
    ensures e in sys.log && Bears(d, digest, e)
  {
    ListingIsExact(sys.st.bindings, d.logicalRepository, d.routeName, digest);
    assert HasKey(sys.st.bindings, b.key) && Bound(sys.log, b.key);
    e :| e in sys.log && e.Binds(b.key);
  }

  lemma UnboundIff(cfg: Setup, sys: System, p: Principal, d: PullDecision, digest: string)
    requires Coherent(cfg, sys)
    ensures AuthorizeCachedObject(cfg, sys.st, p, d, digest).Unbound? <==>
              forall e :: e in sys.log ==> !Bears(d, digest, e)
  {
    var rows := BindingsOf(sys.st.bindings, d.logicalRepository, d.routeName, digest);
    var k := ScanKeepsOrder(cfg, sys.st.logins, p, d.candidateSources, rows, None);
    if e :| e in sys.log && Bears(d, digest, e) {
      var b := BornIsListed(cfg, sys, d, digest, e);
    }
    if AuthorizeCachedObject(cfg, sys.st, p, d, digest).Granted? {
      var e := GrantIsCovered(cfg, sys, p, d, digest);
      assert Bears(d, digest, e);
    } else if k < |rows| {
      var e := ListedIsBorn(cfg, sys, d, digest, rows[k]);
    }
  }

  /** Of an object no candidate's fetch bound the cache knows nothing; of one that some bound, and none in a way the
      principal is entitled to, it denies the principal. */
  lemma DenialIff(cfg: Setup, sys: System, p: Principal, d: PullDecision, digest: string)
    requires Coherent(cfg, sys)
    ensures AuthorizeCachedObject(cfg, sys.st, p, d, digest).Unbound? <==>
              forall e :: e in sys.log ==> !Bears(d, digest, e)
    ensures AuthorizeCachedObject(cfg, sys.st, p, d, digest).Denied? <==>
              && (exists e :: e in sys.log && Bears(d, digest, e))
              && (forall e :: e in sys.log && Bears(d, digest, e) ==> !Entitled(cfg, sys.st.logins, p, e))
  {
    UnboundIff(cfg, sys, p, d, digest);
    if AuthorizeCachedObject(cfg, sys.st, p, d, digest).Granted? {
      var e := GrantIsCovered(cfg, sys, p, d, digest);
      assert Bears(d, digest, e);
    }
    if e :| e in sys.log && Bears(d, digest, e) && Entitled(cfg, sys.st.logins, p, e) {
      CoveredIsGranted(cfg, sys, p, d, digest, e);
    }
  }

  // The object a pull looks for in the cache: the digest it names, or the one a fresh mapping gives its tag.
  function Sought(st: State, d: PullDecision): Option<string> {
    if IsDigest(d.reference) then Some(d.reference)
    else if (d.logicalRepository, d.reference) in st.tags
      && IsFresh(st.tags[(d.logicalRepository, d.reference)], st.now)
    then Some(st.tags[(d.logicalRepository, d.reference)].digest) else None
  }

  /** A reference that begins with "sha256:" is sought as a digest, any other as a tag, while its mapping is fresh. */
  lemma SoughtByReference(st: State, d: PullDecision, name: string)
    ensures d.reference == "sha256:" + name ==> Sought(st, d) == Some(d.reference)
    ensures !("sha256:" <= d.reference) ==>
              var key := (d.logicalRepository, d.reference);
              Sought(st, d) == if key in st.tags && (st.tags[key].freshUntil == 0 || st.now <= st.tags[key].freshUntil)
                               then Some(st.tags[key].digest) else None
  {}

  /** A pull that policy refuses changes nothing and says why. */
  lemma RefusedPullFails(cfg: Setup, st: State, request: PullRequest, up: Upstream)
    ensures cfg.engine.ResolvePull(request.repository, request.reference).Failure? ==>
              Pull(cfg, st, request, up) ==
              (st, Failure(Refused(cfg.engine.ResolvePull(request.repository, request.reference).error)))
  {}

  /** A pull that looks for nothing in the cache, or for what no binding names, is the sources' to answer. */
  lemma UnboundPullAsksSources(cfg: Setup, st: State, p: Principal, d: PullDecision)
    requires Sought(st, d).Some? ==> AuthorizeCachedObject(cfg, st, p, d, Sought(st, d).value).Unbound?
    ensures TryCache(cfg, st, p, d) == None
  {}

  lemma DeniedCacheFails(cfg: Setup, st: State, p: Principal, d: PullDecision)
    requires Sought(st, d).Some? && AuthorizeCachedObject(cfg, st, p, d, Sought(st, d).value).Denied?
    ensures TryCache(cfg, st, p, d) ==
            Some(Failure(CacheRefused(AuthorizeCachedObject(cfg, st, p, d, Sought(st, d).value).error)))
  {}

  lemma CacheEndsPull(cfg: Setup, st: State, request: PullRequest, d: PullDecision, up: Upstream)
    requires cfg.engine.ResolvePull(request.repository, request.reference) == Success(d)
    requires TryCache(cfg, st, request.principal, d).Some?
    ensures Pull(cfg, st, request, up) == (st, TryCache(cfg, st, request.principal, d).value)
  {}

  /** A denial ends the pull: whatever the sources would answer, it fails and changes nothing. */
  lemma DeniedPullFails(cfg: Setup, now: int, logins: Logins, actions: seq<Action>, sys: System, request: PullRequest,
                        d: PullDecision, up: Upstream, e: Fetch)
    requires Reachable(cfg, now, logins, actions, sys)
    requires cfg.engine.ResolvePull(request.repository, request.reference) == Success(d) && Sought(sys.st, d).Some?
    requires e in sys.log && Bears(d, Sought(sys.st, d).value, e)
    requires forall x :: x in sys.log && Bears(d, Sought(sys.st, d).value, x) ==>
               !Entitled(cfg, sys.st.logins, request.principal, x)
    ensures var (after, r) := Pull(cfg, sys.st, request, up); after == sys.st && r.Failure? && r.error.CacheRefused?
  {
    ReachableIsCoherent(cfg, now, logins, actions, sys);
    DenialIff(cfg, sys, request.principal, d, Sought(sys.st, d).value);
    DeniedCacheFails(cfg, sys.st, request.principal, d);
    CacheEndsPull(cfg, sys.st, request, d, up);
  }

  lemma CoveredOpens(cfg: Setup, sys: System, repository: string, digest: string, p: Principal, d: PullDecision,
                     e: Fetch)
    requires Coherent(cfg, sys) && e in sys.log && Covers(cfg, sys.st.logins, p, d, digest, e)
    requires cfg.engine.ResolvePull(repository, digest) == Success(d)
    ensures var r := OpenBlob(cfg, sys.st, repository, digest, p); r.Success? && cfg.hash(r.value.0) == digest
  {
    CoveredIsGranted(cfg, sys, p, d, digest, e);
    assert Open(sys.st.files, digest).Some?;
    OpenedIsAddressed(cfg.hash, sys.st.files, digest);
  }

  /** In every run the cache opens a blob for a principal exactly when an upstream fetch of the same repository and
      route bound it in a way the principal is entitled to now; the blob hashes to its digest. That fetch streamed
      the blob, or the store held it before. */
  lemma CacheNeverWidensAccess(cfg: Setup, now: int, logins: Logins, actions: seq<Action>, sys: System,
                               repository: string, digest: string, p: Principal, d: PullDecision)
    requires Reachable(cfg, now, logins, actions, sys) && cfg.engine.ResolvePull(repository, digest) == Success(d)
    ensures OpenBlob(cfg, sys.st, repository, digest, p).Success? <==>
            exists e :: e in sys.log && Happened(cfg, sys.st.now, e) && Covers(cfg, sys.st.logins, p, d, digest, e)
    ensures forall e :: e in sys.log && e.Has(digest) ==> e.Streams(cfg.hash, digest) || digest in e.held
    ensures OpenBlob(cfg, sys.st, repository, digest, p).Success? ==>
              var (body, credential) := OpenBlob(cfg, sys.st, repository, digest, p).value;
              && cfg.hash(body) == digest
              && exists e :: e in sys.log && Covers(cfg, sys.st.logins, p, d, digest, e) && e.credential == credential
  {
    ReachableIsCoherent(cfg, now, logins, actions, sys);
    RunIsAccounted(cfg, Start(now, logins), actions, sys);
    if OpenBlob(cfg, sys.st, repository, digest, p).Success? {
      var e := GrantIsCovered(cfg, sys, p, d, digest);
      CoveredOpens(cfg, sys, repository, digest, p, d, e);
    }
    if e :| e in sys.log && Happened(cfg, sys.st.now, e) && Covers(cfg, sys.st.logins, p, d, digest, e) {
      CoveredOpens(cfg, sys, repository, digest, p, d, e);
    }
  }

  /** Why a blob does not open: policy refuses its repository, no candidate's fetch bound it, or some did and none in a
      way the principal is entitled to. */
  lemma BlobRefusalSaysWhy(cfg: Setup, now: int, logins: Logins, actions: seq<Action>, sys: System,
                           repository: string, digest: string, p: Principal)
    requires Reachable(cfg, now, logins, actions, sys)
    ensures var decision, r := cfg.engine.ResolvePull(repository, digest), OpenBlob(cfg, sys.st, repository, digest, p);
            if decision.Failure? then r == Failure(Refused(decision.error))
            else
              var d := decision.value;
              && (r == Failure(NothingFound) <==> forall e :: e in sys.log ==> !Bears(d, digest, e))
              && (r.Failure? && r != Failure(NothingFound) ==>
                    && r.error.CacheRefused?
                    && forall e :: e in sys.log && Bears(d, digest, e) ==> !Entitled(cfg, sys.st.logins, p, e))
  {
    ReachableIsCoherent(cfg, now, logins, actions, sys);
    var decision := cfg.engine.ResolvePull(repository, digest);
    if decision.Success? {
      DenialIff(cfg, sys, p, decision.value, digest);
      if AuthorizeCachedObject(cfg, sys.st, p, decision.value, digest).Granted? {
        var e := GrantIsCovered(cfg, sys, p, decision.value, digest);
        CoveredOpens(cfg, sys, repository, digest, p, decision.value, e);
      }
    }
  }

  /** And when upstreams stream the blobs their manifests name, exactly when such a fetch brought the blob itself. */
  lemma HonestCacheNeverWidensAccess(cfg: Setup, now: int, logins: Logins, actions: seq<Action>, sys: System,
                                     repository: string, digest: string, p: Principal, d: PullDecision)
    requires Reachable(cfg, now, logins, actions, sys) && cfg.engine.ResolvePull(repository, digest) == Success(d)
    requires HonestRun(cfg.hash, actions)
    ensures OpenBlob(cfg, sys.st, repository, digest, p).Success? <==>
            exists e :: && e in sys.log && Happened(cfg, sys.st.now, e) && Covers(cfg, sys.st.logins, p, d, digest, e)
                        && e.Streams(cfg.hash, digest)
  {
    CacheNeverWidensAccess(cfg, now, logins, actions, sys, repository, digest, p, d);
    RunIsAccounted(cfg, Start(now, logins), actions, sys);
    forall e | e in sys.log && Covers(cfg, sys.st.logins, p, d, digest, e) ensures e.Streams(cfg.hash, digest) {
      assert AllStreamed(cfg.hash, e) && e.Has(digest);
    }
  }

  // ---------------------------------------------------------------- what a tag hit returns

  predicate Collides(h: Hash, a: Bytes, b: Bytes) { a != b && h(a) == h(b) }

  lemma {:induction false} LatestIsLogged(log: seq<Fetch>, logical: string, tag: string)
    requires Latest(log, logical, tag).Some?
    ensures var e := Latest(log, logical, tag).value;
            e in log && e.mapped && e.d.logicalRepository == logical && e.d.reference == tag
  {
    if !(log[|log| - 1].mapped && log[|log| - 1].d.logicalRepository == logical && log[|log| - 1].d.reference == tag) {
      LatestIsLogged(log[..|log| - 1], logical, tag);
    }
  }

  // What a tag hit reads: a fresh mapping, a binding of its source and digest, and the stored body.
  lemma HitReads(cfg: Setup, st: State, p: Principal, d: PullDecision) returns (mapping: TagMapping, body: Bytes)
    requires TryTag(cfg, st, p, d).Some? && TryTag(cfg, st, p, d).value.Success?
    ensures (d.logicalRepository, d.reference) in st.tags && st.tags[(d.logicalRepository, d.reference)] == mapping
            && IsFresh(mapping, st.now)
    ensures AuthorizeCachedObject(cfg, st, p, d, mapping.digest).Granted?
    ensures var key := AuthorizeCachedObject(cfg, st, p, d, mapping.digest).binding.key;
            key.source == mapping.source && key.manifest == mapping.digest
    ensures TryTag(cfg, st, p, d).value.value.credential ==
              AuthorizeCachedObject(cfg, st, p, d, mapping.digest).credential
    ensures Open(st.files, mapping.digest) == Some(body)
    ensures var m := TryTag(cfg, st, p, d).value.value.manifest;
            && m.digest == mapping.digest && m.blobs == mapping.blobs && m.content == body
            && (mapping.mediaType != "" ==> m.mediaType == mapping.mediaType)
            && m.size == if mapping.size == 0 then |body| else mapping.size
  {
    mapping := st.tags[(d.logicalRepository, d.reference)];
    body := Open(st.files, mapping.digest).value;
  }

  lemma TagIsMapped(sys: System, logical: string, tag: string) returns (e: Fetch)
    requires TagsMatch(sys.st.tags, sys.log) && (logical, tag) in sys.st.tags
    ensures Latest(sys.log, logical, tag) == Some(e) && sys.st.tags[(logical, tag)] == MappingOf(e)
    ensures e in sys.log && e.mapped
  {
    e := Latest(sys.log, logical, tag).value;
    LatestIsLogged(sys.log, logical, tag);
  }

  // A tag hit serves the latest fetch that mapped the tag, through a binding of a fetch with the same source and
  // digest.
  lemma HitComesFromLatest(cfg: Setup, sys: System, p: Principal, d: PullDecision) returns (e: Fetch, via: Fetch)
    requires Coherent(cfg, sys) && !IsDigest(d.reference)
    requires TryCache(cfg, sys.st, p, d).Some? && TryCache(cfg, sys.st, p, d).value.Success?
    ensures Latest(sys.log, d.logicalRepository, d.reference) == Some(e) && e in sys.log
            && sys.st.now <= e.at + DAY
    ensures via in sys.log && via.manifest.digest == e.manifest.digest && via.Source() == e.Source()
    ensures Covers(cfg, sys.st.logins, p, d, e.manifest.digest, via)
    ensures TryCache(cfg, sys.st, p, d).value.value.credential == via.credential
    ensures var m := TryCache(cfg, sys.st, p, d).value.value.manifest;
            && m.digest == e.manifest.digest && m.mediaType == e.manifest.mediaType && m.blobs == e.manifest.blobs
            && cfg.hash(m.content) == m.digest && (m.content == e.manifest.content ==> m.size == e.manifest.size)
  {
    var mapping, body := HitReads(cfg, sys.st, p, d);
    e := TagIsMapped(sys, d.logicalRepository, d.reference);
    via := GrantIsCovered(cfg, sys, p, d, mapping.digest);
    OpenedIsAddressed(cfg.hash, sys.st.files, mapping.digest);
    assert Happened(cfg, sys.st.now, e) && Parses(cfg.hash, cfg.decode, e.manifest);
  }

  /** In every run a tag the cache answers gets the manifest of the latest recorded upstream pull of that
      repository and tag, no more than 24 hours after it; but for two contents with one digest. */
  lemma CacheAgreesWithUpstream(cfg: Setup, now: int, logins: Logins, actions: seq<Action>, sys: System,
                                request: PullRequest, d: PullDecision)
    requires Reachable(cfg, now, logins, actions, sys)
             && cfg.engine.ResolvePull(request.repository, request.reference) == Success(d)
    requires !IsDigest(d.reference)
    requires TryCache(cfg, sys.st, request.principal, d).Some?
             && TryCache(cfg, sys.st, request.principal, d).value.Success?
    ensures var m := TryCache(cfg, sys.st, request.principal, d).value.value.manifest;
            var latest := Latest(sys.log, d.logicalRepository, d.reference);
            && latest.Some? && latest.value.at <= sys.st.now <= latest.value.at + DAY
            && (m == latest.value.manifest || Collides(cfg.hash, m.content, latest.value.manifest.content))
  {
    ReachableIsCoherent(cfg, now, logins, actions, sys);
    var e, via := HitComesFromLatest(cfg, sys, request.principal, d);
    assert Happened(cfg, sys.st.now, e);
    assert cfg.hash(e.manifest.content) == e.manifest.digest;
  }

  // The fetches of an object all came through one source and for one manifest.
  predicate Unrivalled(log: seq<Fetch>, d: PullDecision, e: Fetch) {
    forall x | x in log && x.d.logicalRepository == d.logicalRepository && x.d.routeName == d.routeName
      && x.Has(e.manifest.digest) ::
      x.Source() == e.Source() && x.manifest.digest == e.manifest.digest
  }

  lemma MappedObjectIsServed(cfg: Setup, st: State, p: Principal, d: PullDecision, mapping: TagMapping)
    requires (d.logicalRepository, d.reference) in st.tags && st.tags[(d.logicalRepository, d.reference)] == mapping
    requires IsFresh(mapping, st.now) && Open(st.files, mapping.digest).Some?
    requires AuthorizeCachedObject(cfg, st, p, d, mapping.digest).Granted?
    requires var key := AuthorizeCachedObject(cfg, st, p, d, mapping.digest).binding.key;
             key.source == mapping.source && key.manifest == mapping.digest
    ensures var r := TryTag(cfg, st, p, d); r.Some? && r.value.Success? && r.value.value.source == SOURCE_CACHE
  {}

  lemma LatestIsMapped(cfg: Setup, sys: System, d: PullDecision, e: Fetch)
    requires Coherent(cfg, sys) && Latest(sys.log, d.logicalRepository, d.reference) == Some(e)
    requires cfg.engine.ResolvePull(d.logicalRepository, d.reference) == Success(d)
    ensures e in sys.log && e.d == d && e.index < |d.candidateSources| && Open(sys.st.files, e.manifest.digest).Some?
    ensures (d.logicalRepository, d.reference) in sys.st.tags
            && sys.st.tags[(d.logicalRepository, d.reference)] == MappingOf(e)
  {
    LatestIsLogged(sys.log, d.logicalRepository, d.reference);
    assert Happened(cfg, sys.st.now, e) && e.Has(e.manifest.digest);
  }

  lemma UnrivalledIsGranted(cfg: Setup, sys: System, p: Principal, d: PullDecision, e: Fetch)
    requires Coherent(cfg, sys) && e in sys.log && Covers(cfg, sys.st.logins, p, d, e.manifest.digest, e)
             && Unrivalled(sys.log, d, e)
    ensures var g := AuthorizeCachedObject(cfg, sys.st, p, d, e.manifest.digest);
            g.Granted? && g.binding.key.source == e.Source() && g.binding.key.manifest == e.manifest.digest
  {
    CoveredIsGranted(cfg, sys, p, d, e.manifest.digest, e);
    var via := GrantIsCovered(cfg, sys, p, d, e.manifest.digest);
  }

  /** And the cache does answer: for 24 hours after the latest recorded pull of a tag, everybody entitled to what it
      fetched is served, unless the same object was also fetched from another source or for another manifest. */
  lemma FreshTagIsServed(cfg: Setup, now: int, logins: Logins, actions: seq<Action>, sys: System, p: Principal,
                         repository: string, tag: string, d: PullDecision, e: Fetch)
    requires Reachable(cfg, now, logins, actions, sys) && cfg.engine.ResolvePull(repository, tag) == Success(d)
             && !IsDigest(tag)
    requires Latest(sys.log, d.logicalRepository, tag) == Some(e) && sys.st.now <= e.at + DAY
    requires Entitled(cfg, sys.st.logins, p, e) && Unrivalled(sys.log, d, e)
    ensures var r := TryCache(cfg, sys.st, p, d); r.Some? && r.value.Success? && r.value.value.source == SOURCE_CACHE
  {
    ReachableIsCoherent(cfg, now, logins, actions, sys);
    DecisionIsStable(cfg.engine, repository, tag, d);
    LatestIsMapped(cfg, sys, d, e);
    UnrivalledIsGranted(cfg, sys, p, d, e);
    MappedObjectIsServed(cfg, sys.st, p, d, MappingOf(e));
  }

  lemma DigestHitIsCovered(cfg: Setup, sys: System, p: Principal, d: PullDecision) returns (e: Fetch)
    requires Coherent(cfg, sys) && TryDigest(cfg, sys.st, p, d).Some? && TryDigest(cfg, sys.st, p, d).value.Success?
    ensures var m := TryDigest(cfg, sys.st, p, d).value.value.manifest;
            cfg.hash(m.content) == m.digest && e in sys.log && Covers(cfg, sys.st.logins, p, d, m.digest, e)
    ensures TryDigest(cfg, sys.st, p, d).value.value.credential == e.credential
  {
    e := GrantIsCovered(cfg, sys, p, d, d.reference);
    assert Open(sys.st.files, d.reference).Some?;
    OpenedIsAddressed(cfg.hash, sys.st.files, d.reference);
  }

  // What a hit by digest reads: the stored body, parsed if it parses.
  lemma DigestHitReads(cfg: Setup, st: State, p: Principal, d: PullDecision)
    requires Addressed(cfg.hash, st.files) && TryDigest(cfg, st, p, d).Some? && TryDigest(cfg, st, p, d).value.Success?
    ensures var m := TryDigest(cfg, st, p, d).value.value.manifest;
            && m.digest == d.reference == cfg.hash(m.content) && Open(st.files, d.reference) == Some(m.content)
            && var parsed := ParseManifest(cfg.hash, cfg.decode, m.content);
               if parsed.Some? then parsed == Some(m) else m == Manifest("", d.reference, |m.content|, m.content, [])
  {
    OpenedIsAddressed(cfg.hash, st.files, d.reference);
  }

  /** In every run a digest the cache answers gets the stored content as parsing it gives it; and if a fetch had a
      manifest of that digest, that manifest, but for two contents with one digest. */
  lemma DigestHitIsParsed(cfg: Setup, now: int, logins: Logins, actions: seq<Action>, sys: System, p: Principal,
                          repository: string, digest: string, d: PullDecision, e: Fetch)
    requires Reachable(cfg, now, logins, actions, sys) && cfg.engine.ResolvePull(repository, digest) == Success(d)
    requires IsDigest(d.reference) && TryCache(cfg, sys.st, p, d).Some? && TryCache(cfg, sys.st, p, d).value.Success?
    ensures var m := TryCache(cfg, sys.st, p, d).value.value.manifest;
            && m.digest == digest == cfg.hash(m.content)
            && (ParseManifest(cfg.hash, cfg.decode, m.content).Some? ==>
                ParseManifest(cfg.hash, cfg.decode, m.content) == Some(m))
            && (ParseManifest(cfg.hash, cfg.decode, m.content) == None ==>
                m == Manifest("", digest, |m.content|, m.content, []))
            && (e in sys.log && e.manifest.digest == digest ==>
                  m == e.manifest || Collides(cfg.hash, m.content, e.manifest.content))
  {
    ReachableIsCoherent(cfg, now, logins, actions, sys);
    DecisionIsStable(cfg.engine, repository, digest, d);
    DigestHitReads(cfg, sys.st, p, d);
    if e in sys.log {
      assert Happened(cfg, sys.st.now, e) && Parses(cfg.hash, cfg.decode, e.manifest);
    }
  }

  /** A hit names the cache as its source, its route, and no fallback. */
  lemma HitNamesCache(cfg: Setup, st: State, p: Principal, d: PullDecision)
    requires TryCache(cfg, st, p, d).Some? && TryCache(cfg, st, p, d).value.Success?
    ensures var r := TryCache(cfg, st, p, d).value.value;
            r.source == SOURCE_CACHE && r.route == d.routeName && !r.fallbackUsed
  {}

  /** Likewise a manifest the cache answers with, by tag or by digest, was bound by an upstream fetch of the same
      repository and route in a way the principal is entitled to, and hashes to its digest. */
  lemma CachedManifestIsCovered(cfg: Setup, now: int, logins: Logins, actions: seq<Action>, sys: System, p: Principal,
                                repository: string, reference: string, d: PullDecision)
    requires Reachable(cfg, now, logins, actions, sys) && cfg.engine.ResolvePull(repository, reference) == Success(d)
    requires TryCache(cfg, sys.st, p, d).Some? && TryCache(cfg, sys.st, p, d).value.Success?
    ensures var m := TryCache(cfg, sys.st, p, d).value.value.manifest;
            && cfg.hash(m.content) == m.digest
            && exists e ::
                 && e in sys.log && Happened(cfg, sys.st.now, e) && Covers(cfg, sys.st.logins, p, d, m.digest, e)
                 && e.credential == TryCache(cfg, sys.st, p, d).value.value.credential
  {
    ReachableIsCoherent(cfg, now, logins, actions, sys);
    var e: Fetch;
    if IsDigest(d.reference) {
      e := DigestHitIsCovered(cfg, sys, p, d);
    } else {
      var latest: Fetch;
      latest, e := HitComesFromLatest(cfg, sys, p, d);
    }
    assert Happened(cfg, sys.st.now, e);
  }

  // ---------------------------------------------------------------- a docker pull can finish

  ghost predicate NoCollisions(h: Hash, log: seq<Fetch>) {
    forall a, b :: a in log && b in log ==> !Collides(h, a.manifest.content, b.manifest.content)
  }

  // The fetch that lets the puller of a tag have the manifest's blobs too.
  ghost predicate Carries(cfg: Setup, logins: Logins, p: Principal, d: PullDecision, m: Manifest, e: Fetch) {
    forall digest :: digest in m.blobs ==> Covers(cfg, logins, p, d, digest, e)
  }

  lemma HitCarries(cfg: Setup, sys: System, p: Principal, d: PullDecision) returns (e: Fetch)
    requires Coherent(cfg, sys) && !IsDigest(d.reference) && NoCollisions(cfg.hash, sys.log)
    requires TryCache(cfg, sys.st, p, d).Some? && TryCache(cfg, sys.st, p, d).value.Success?
    ensures e in sys.log && Carries(cfg, sys.st.logins, p, d, TryCache(cfg, sys.st, p, d).value.value.manifest, e)
  {
    var latest, via := HitComesFromLatest(cfg, sys, p, d);
    assert Happened(cfg, sys.st.now, latest) && Happened(cfg, sys.st.now, via);
    assert !Collides(cfg.hash, latest.manifest.content, via.manifest.content);
    assert latest.manifest == via.manifest;
    e := via;
  }

  lemma FetchCarries(cfg: Setup, st: State, p: Principal, d: PullDecision, up: Upstream, e: Fetch)
    requires Happened(cfg, st.now, e) && Remembers(st, p, d, up, e)
    ensures Carries(cfg, st.logins, p, d, e.manifest, e)
  {
    CredentialIsDue(cfg, st.now, e);
  }

  lemma MissCarries(cfg: Setup, st: State, p: Principal, d: PullDecision, up: Upstream)
    requires st.now > 0 && Addressed(cfg.hash, st.files) && AnswersInForm(cfg, up)
    requires cfg.engine.ResolvePull(d.logicalRepository, d.reference) == Success(d)
             && FromSources(cfg, st, p, d, up).1.Success?
    ensures var fetch := FetchFrom(cfg, st, p, d, up);
            fetch.Some? && Carries(cfg, st.logins, p, d, FromSources(cfg, st, p, d, up).1.value.manifest, fetch.value)
  {
    SuccessIsFetched(cfg, st, p, d, up);
    FetchHappened(cfg, st, p, d, up);
    FetchCarries(cfg, st, p, d, up, FetchFrom(cfg, st, p, d, up).value);
  }

  lemma PullCarries(cfg: Setup, sys: System, request: PullRequest, up: Upstream, d: PullDecision) returns (e: Fetch)
    requires Coherent(cfg, sys) && AnswersInForm(cfg, up) && !IsDigest(d.reference)
    requires cfg.engine.ResolvePull(request.repository, request.reference) == Success(d)
    requires Pull(cfg, sys.st, request, up).1.Success?
             && NoCollisions(cfg.hash, Apply(cfg, sys, Pulls(request, up)).log)
    ensures e in Apply(cfg, sys, Pulls(request, up)).log
    ensures Carries(cfg, sys.st.logins, request.principal, d, Pull(cfg, sys.st, request, up).1.value.manifest, e)
  {
    if TryCache(cfg, sys.st, request.principal, d).Some? {
      e := HitCarries(cfg, sys, request.principal, d);
    } else {
      DecisionIsStable(cfg.engine, request.repository, request.reference, d);
      MissCarries(cfg, sys.st, request.principal, d, up);
      e := FetchFrom(cfg, sys.st, request.principal, d, up).value;
    }
  }

  /** After a successful pull of a tag, from upstream or from the cache, its principal can open every blob of
      the manifest for as long as the accounts stay as they are, whatever else happens. */
  lemma DockerPullCanFinish(cfg: Setup, now: int, logins: Logins, actions: seq<Action>, sys: System,
                            request: PullRequest,
                            up: Upstream, d: PullDecision, more: seq<Action>, end: System, digest: string)
    requires Reachable(cfg, now, logins, actions, sys) && Enabled(cfg, sys, Pulls(request, up))
    requires cfg.engine.ResolvePull(request.repository, request.reference) == Success(d) && !IsDigest(d.reference)
    requires Pull(cfg, sys.st, request, up).1.Success?
             && NoCollisions(cfg.hash, Apply(cfg, sys, Pulls(request, up)).log)
    requires Executes(cfg, Apply(cfg, sys, Pulls(request, up)), more, end) && LeavesAccounts(more)
    requires digest in Pull(cfg, sys.st, request, up).1.value.manifest.blobs
    ensures var r := OpenBlob(cfg, end.st, request.repository, digest, request.principal);
            r.Success? && cfg.hash(r.value.0) == digest
  {
    ReachableIsCoherent(cfg, now, logins, actions, sys);
    var e := PullCarries(cfg, sys, request, up, d);
    var after := Apply(cfg, sys, Pulls(request, up));
    ActionIsCoherent(cfg, sys, Pulls(request, up));
    RunIsCoherent(cfg, after, more, end);
    assert Covers(cfg, end.st.logins, request.principal, d.(reference := digest), digest, e);
    CoveredOpens(cfg, end, request.repository, digest, request.principal, d.(reference := digest), e);
  }
}
