// What the pull cache keeps over whole runs of pulls, pushes, uploads, account changes and clock ticks.
//
// `log` remembers every upstream fetch a pull recorded; it is what the cache is compared with.

module CacheRuns {
  import opened Text
  import opened Policy
  import opened Content
  import opened Registry
  import opened Metadata
  import opened Tokens
  import opened Resolution
  import opened Fallback
  import opened Pushing

  // One fetch: who got which manifest from which candidate, with which credential, whether a tag was mapped, what
  // was streamed for each blob, and which of the blobs the store held before.
  datatype Fetch = Fetch(d: PullDecision, p: Principal, index: nat, credential: Credential, manifest: Manifest,
                         at: int, logins: Logins, mapped: bool, replies: seq<BlobReply>, held: set<string>) {
    function Source(): string { if index < |d.candidateSources| then d.candidateSources[index] else "" }

    predicate Has(digest: string) { digest == manifest.digest || digest in manifest.blobs }

    function KeyOf(digest: string): Key { NewBinding(d, Source(), manifest, credential, p, digest, BlobObject).key }

    predicate Binds(key: Key) { Has(key.digest) && key == KeyOf(key.digest) }

    // Whether the fetch itself brought bytes that hash to the digest.
    predicate Streams(h: Hash, digest: string) {
      || (digest == manifest.digest && h(manifest.content) == digest)
      || (|replies| == |manifest.blobs|
          && exists k | 0 <= k < |replies| :: manifest.blobs[k] == digest && StreamsTo(h, replies[k], digest))
    }
  }

  predicate StreamsTo(h: Hash, reply: BlobReply, digest: string) {
    reply.Streamed? && ReadAll(reply.chunks).Some? && h(ReadAll(reply.chunks).value) == digest
  }

  datatype System = System(st: State, log: seq<Fetch>)

  datatype Action =
    | Pulls(request: PullRequest, up: Upstream)
    | Pushes(push: PushRequest, f: Fake, faults: Faults)
    | Uploads(digest: string, source: seq<Chunk>)
    | ChangesAccounts(logins: Logins)
    | Waits(until: int)

  // The fetch a search leads to: what it served, if it can be stored and bound.
  function FetchAfter(cfg: Setup, st: State, p: Principal, d: PullDecision, up: Upstream, search: Search): Option<Fetch>
    requires search.served.Some? ==> 0 < search.asked <= |d.candidateSources|
  {
    match search.served
    case None => None
    case Some(found) =>
      var (credential, m) := found;
      if Retainable(cfg, st, p, d, search.asked - 1, credential, m, up)
      then Some(NewFetch(st, p, d, search.asked - 1, credential, m, up)) else None
  }

  predicate Retainable(cfg: Setup, st: State, p: Principal, d: PullDecision, i: nat, credential: Credential,
                       m: Manifest, up: Upstream)
    requires i < |d.candidateSources|
  {
    && ManifestCached(cfg.hash, st.files, m, up.blob).1
    && Recorded(st.bindings, NewBindings(d, d.candidateSources[i], m, credential, p), st.now).Success?
  }

  function FetchFrom(cfg: Setup, st: State, p: Principal, d: PullDecision, up: Upstream): Option<Fetch> {
    FetchAfter(cfg, st, p, d, up, SearchFrom(cfg, st.logins, p, d.candidateSources, up, 0, NothingTried))
  }

  function NewFetch(st: State, p: Principal, d: PullDecision, i: nat, credential: Credential, m: Manifest,
                    up: Upstream): Fetch
    requires i < |d.candidateSources|
  {
    var mapping := NewMapping(m, d.candidateSources[i], d.routeName, st.now);
    var mapped := !IsDigest(d.reference) && ValidMapping(d.logicalRepository, d.reference, mapping);
    Fetch(d, p, i, credential, m, st.now, st.logins, mapped,
          seq(|m.blobs|, k requires 0 <= k < |m.blobs| => up.blob(k)),
          set digest | digest in m.blobs && Open(st.files, digest).Some?)
  }

  function FetchOf(cfg: Setup, st: State, request: PullRequest, up: Upstream): Option<Fetch> {
    match cfg.engine.ResolvePull(request.repository, request.reference)
    case Failure(_) => None
    case Success(d) =>
      if TryCache(cfg, st, request.principal, d).Some? then None else FetchFrom(cfg, st, request.principal, d, up)
  }

  function Logged(log: seq<Fetch>, fetch: Option<Fetch>): seq<Fetch> {
    if fetch.Some? then log + [fetch.value] else log
  }

  // Connectors answer in ParseManifest form, and time does not run backwards.
  ghost predicate Enabled(cfg: Setup, sys: System, action: Action) {
    match action
    case Pulls(_, up) => AnswersInForm(cfg, up)
    case Waits(until) => sys.st.now <= until
    case _ => true
  }

  function Apply(cfg: Setup, sys: System, action: Action): System {
    match action
    case Pulls(request, up) => System(Pull(cfg, sys.st, request, up).0,
                                      Logged(sys.log, FetchOf(cfg, sys.st, request, up)))
    case Pushes(push, f, faults) => sys.(st := Pushed(cfg, sys.st, push, f, faults).0)
    case Uploads(digest, source) => sys.(st := sys.st.(files := Put(cfg.hash, sys.st.files, digest, source).0))
    case ChangesAccounts(logins) => sys.(st := sys.st.(logins := logins))
    case Waits(until) => sys.(st := sys.st.(now := until))
  }

  const DAY: int := 86_400 * 1_000_000_000

  // Whom a binding is for: everybody, every enabled user, or the user whose credential fetched it.
  predicate IsFor(key: Key, credential: Credential, p: Principal) {
    && (key.access == Challenge <==> credential == AnonymousCredential)
    && (key.access == Proxy <==> credential == ProxyCredential)
    && key.user == (if credential == UserCredential then LocalID(p) else "")
  }

  /** What a fetch leaves in the metadata: a binding of its manifest and then one of each blob, and for a tag a mapping
      that is good for a day. */
  lemma FetchIsDescribed(d: PullDecision, source: string, m: Manifest, credential: Credential, p: Principal, now: int)
    ensures var all := NewBindings(d, source, m, credential, p);
            && |all| == 1 + |m.blobs| && all[0].kind == ManifestObject && all[0].key.digest == m.digest
            && (forall i :: 1 <= i < |all| ==> all[i].kind == BlobObject && all[i].key.digest == m.blobs[i - 1])
            && (forall b :: b in all ==>
                  && b.physical == d.physicalRepository && b.key.logical == d.logicalRepository
                  && b.key.route == d.routeName && b.key.source == source && b.key.manifest == m.digest
                  && IsFor(b.key, credential, p))
    ensures NewMapping(m, source, d.routeName, now) ==
            TagMapping(m.digest, m.mediaType, m.size, m.blobs, source, d.routeName, now, now + DAY)
  {}

  // ---------------------------------------------------------------- the invariant

  // The last fetch that mapped a tag.
  function Latest(log: seq<Fetch>, logical: string, tag: string): Option<Fetch> {
    if log == [] then None
    else
      var last := log[|log| - 1];
      if last.mapped && last.d.logicalRepository == logical && last.d.reference == tag then Some(last)
      else Latest(log[..|log| - 1], logical, tag)
  }

  // A fetch that happened: its candidate served its manifest to its principal under the logins of the time.
  predicate Happened(cfg: Setup, now: int, e: Fetch) {
    && e.index < |e.d.candidateSources| && 0 < e.at <= now && Parses(cfg.hash, cfg.decode, e.manifest)
    && TurnOf(cfg, e.logins, e.p, e.Source(), Found(e.manifest)) == Serves(e.credential, e.manifest)
    && cfg.engine.ResolvePull(e.d.logicalRepository, e.d.reference) == Success(e.d)
  }

  predicate Bound(log: seq<Fetch>, key: Key) { exists e | e in log :: e.Binds(key) }

  ghost predicate BindingsMatch(rows: seq<Binding>, log: seq<Fetch>) {
    forall key :: HasKey(rows, key) <==> Bound(log, key)
  }

  function MappingOf(e: Fetch): TagMapping { NewMapping(e.manifest, e.Source(), e.d.routeName, e.at) }

  ghost predicate TagsMatch(tags: Tags, log: seq<Fetch>) {
    forall logical, tag ::
      && ((logical, tag) in tags <==> Latest(log, logical, tag).Some?)
      && ((logical, tag) in tags ==> tags[(logical, tag)] == MappingOf(Latest(log, logical, tag).value))
  }

  ghost predicate ObjectsStored(files: Files, log: seq<Fetch>) {
    forall e, digest :: e in log && e.Has(digest) ==> Open(files, digest).Some?
  }

  ghost predicate Coherent(cfg: Setup, sys: System) {
    && sys.st.now > 0 && Addressed(cfg.hash, sys.st.files)
    && (forall e :: e in sys.log ==> Happened(cfg, sys.st.now, e))
    && BindingsMatch(sys.st.bindings, sys.log) && TagsMatch(sys.st.tags, sys.log)
       && ObjectsStored(sys.st.files, sys.log)
  }

  ghost predicate FilesGrow(h: Hash, before: Files, after: Files) {
    && Addressed(h, after)
    && forall digest :: Open(before, digest).Some? ==> Open(after, digest) == Open(before, digest)
  }

  lemma PutGrows(h: Hash, files: Files, digest: string, source: seq<Chunk>)
    requires Addressed(h, files)
    ensures FilesGrow(h, files, Put(h, files, digest, source).0)
    ensures Put(h, files, digest, source).1.Success? ==> Open(Put(h, files, digest, source).0, digest).Some?
  {
    PutAddsOnly(h, files, digest, source);
  }

  lemma {:induction false} BlobsAreStored(h: Hash, files: Files, digests: seq<string>, replies: nat -> BlobReply,
                                          i: nat)
    requires Addressed(h, files) && i <= |digests|
    ensures var (after, ok) := BlobsCached(h, files, digests, replies, i);
            FilesGrow(h, files, after) && (ok ==> forall k :: i <= k < |digests| ==> Open(after, digests[k]).Some?)
    decreases |digests| - i
  {
    if i < |digests| && !replies(i).NotOpened? {
      PutGrows(h, files, digests[i], replies(i).chunks);
      var (next, put) := Put(h, files, digests[i], replies(i).chunks);
      if put.Success? && !replies(i).NotClosed? {
        BlobsAreStored(h, next, digests, replies, i + 1);
      }
    }
  }

  lemma ManifestAndBlobsAreStored(h: Hash, files: Files, m: Manifest, replies: nat -> BlobReply)
    requires Addressed(h, files)
    ensures var (after, ok) := ManifestCached(h, files, m, replies);
            FilesGrow(h, files, after) && (ok ==> forall d :: d == m.digest || d in m.blobs ==> Open(after, d).Some?)
  {
    PutGrows(h, files, m.digest, [Chunk(m.content)]);
    var (next, put) := Put(h, files, m.digest, [Chunk(m.content)]);
    BlobsAreStored(h, next, m.blobs, replies, 0);
  }

  lemma NewBindingsBind(e: Fetch, key: Key)
    ensures HasKey(NewBindings(e.d, e.Source(), e.manifest, e.credential, e.p), key) <==> e.Binds(key)
  {
    var all := NewBindings(e.d, e.Source(), e.manifest, e.credential, e.p);
    forall b | b in all ensures e.Binds(b.key) {
      var i :| 0 <= i < |all| && all[i] == b;
      if i > 0 { assert e.manifest.blobs[i - 1] in e.manifest.blobs; }
    }
    if e.Binds(key) {
      if key.digest in e.manifest.blobs {
        var i :| 0 <= i < |e.manifest.blobs| && e.manifest.blobs[i] == key.digest;
        assert all[i + 1] in all && all[i + 1].key == key;
      } else {
        assert all[0] in all && all[0].key == key;
      }
    }
  }

  lemma BoundGrows(log: seq<Fetch>, e: Fetch, key: Key)
    ensures Bound(log + [e], key) <==> Bound(log, key) || e.Binds(key)
  {
    assert e in log + [e];
    if Bound(log, key) {
      var x :| x in log && x.Binds(key);
      assert x in log + [e];
    }
  }

  lemma BindingsStayMatched(rows: seq<Binding>, log: seq<Fetch>, e: Fetch, now: int)
    requires BindingsMatch(rows, log)
    ensures BindingsMatch(AllUpserted(rows, NewBindings(e.d, e.Source(), e.manifest, e.credential, e.p), now),
                          log + [e])
  {
    var added := NewBindings(e.d, e.Source(), e.manifest, e.credential, e.p);
    forall key ensures HasKey(AllUpserted(rows, added, now), key) <==> Bound(log + [e], key) {
      RecordingAdds(rows, added, now, key);
      NewBindingsBind(e, key);
      BoundGrows(log, e, key);
    }
  }

  lemma TagsStayMatched(tags: Tags, log: seq<Fetch>, e: Fetch)
    requires TagsMatch(tags, log)
    ensures TagsMatch(if e.mapped
                      then tags[(e.d.logicalRepository, e.d.reference) := MappingOf(e)] else tags, log + [e])
  {
    assert (log + [e])[..|log|] == log;
  }

  // ---------------------------------------------------------------- every action keeps it

  lemma TimePasses(cfg: Setup, now: int, later: int, e: Fetch)
    requires Happened(cfg, now, e) && now <= later
    ensures Happened(cfg, later, e)
  {}

  lemma StoreMayGrow(cfg: Setup, sys: System, files: Files)
    requires Coherent(cfg, sys) && FilesGrow(cfg.hash, sys.st.files, files)
    ensures Coherent(cfg, sys.(st := sys.st.(files := files)))
  {
    forall e, digest | e in sys.log && e.Has(digest) ensures Open(files, digest).Some? {
      assert Open(sys.st.files, digest).Some?;
    }
  }

  // A decision leads from the logical repository back to itself.
  lemma DecisionIsStable(engine: Engine, repository: string, reference: string, d: PullDecision)
    requires engine.ResolvePull(repository, reference) == Success(d)
    ensures engine.ResolvePull(d.logicalRepository, d.reference) == Success(d) && d.reference == reference
  {
    NormalizeCutsEnds(engine.alphabet, repository, d.logicalRepository);
  }

  lemma RecordedIsCoherent(cfg: Setup, sys: System, e: Fetch, files: Files)
    requires Coherent(cfg, sys) && FilesGrow(cfg.hash, sys.st.files, files) && Happened(cfg, sys.st.now, e)
    requires forall digest :: e.Has(digest) ==> Open(files, digest).Some?
    ensures var rows :=
              AllUpserted(sys.st.bindings, NewBindings(e.d, e.Source(), e.manifest, e.credential, e.p), sys.st.now);
            var tags := if e.mapped
                then sys.st.tags[(e.d.logicalRepository, e.d.reference) := MappingOf(e)] else sys.st.tags;
            Coherent(cfg, System(State(sys.st.now, files, tags, rows, sys.st.logins), sys.log + [e]))
  {
    StoreMayGrow(cfg, sys, files);
    BindingsStayMatched(sys.st.bindings, sys.log, e, sys.st.now);
    TagsStayMatched(sys.st.tags, sys.log, e);
    assert ObjectsStored(files, sys.log);
  }

  ghost predicate AnswersInForm(cfg: Setup, up: Upstream) {
    forall i :: up.manifest(i).Found? ==> Parses(cfg.hash, cfg.decode, up.manifest(i).manifest)
  }

  // What a fetch remembers of the pull that made it.
  predicate Remembers(st: State, p: Principal, d: PullDecision, up: Upstream, e: Fetch) {
    && e.d == d && e.p == p && e.at == st.now && e.logins == st.logins && e.index < |d.candidateSources|
    && up.manifest(e.index) == Found(e.manifest)
  }

  lemma ServedTurn(cfg: Setup, logins: Logins, p: Principal, sources: seq<string>, up: Upstream)
    ensures var r := SearchFrom(cfg, logins, p, sources, up, 0, NothingTried);
            r.served.Some? ==>
              && up.manifest(r.asked - 1) == Found(r.served.value.1)
              && TurnOf(cfg, logins, p, sources[r.asked - 1], Found(r.served.value.1)) ==
                 Serves(r.served.value.0, r.served.value.1)
  {
    var r := SearchFrom(cfg, logins, p, sources, up, 0, NothingTried);
    SearchPassesOn(cfg, logins, p, sources, up, 0, NothingTried);
    if r.served.Some? {
      ServingReply(cfg, logins, p, sources[r.asked - 1], up.manifest(r.asked - 1), r.served.value.0, r.served.value.1);
    }
  }

  // A pull from the sources serves nothing and changes nothing, or retains what candidate `i` served; a fetch is that.
  lemma Serving(cfg: Setup, st: State, p: Principal, d: PullDecision, up: Upstream)
    returns (served: bool, i: nat, credential: Credential, m: Manifest)
    ensures !served ==> FetchFrom(cfg, st, p, d, up) == None && FromSources(cfg, st, p, d, up).0 == st
                        && FromSources(cfg, st, p, d, up).1.Failure?
    ensures served ==>
              && i < |d.candidateSources| && up.manifest(i) == Found(m)
              && TurnOf(cfg, st.logins, p, d.candidateSources[i], Found(m)) == Serves(credential, m)
              && FromSources(cfg, st, p, d, up) == Retained(cfg, st, p, d, i, credential, m, up)
    ensures FetchFrom(cfg, st, p, d, up).Some? <==> served && Retainable(cfg, st, p, d, i, credential, m, up)
    ensures FetchFrom(cfg, st, p, d, up).Some? ==>
              FetchFrom(cfg, st, p, d, up).value == NewFetch(st, p, d, i, credential, m, up)
  {
    ServedTurn(cfg, st.logins, p, d.candidateSources, up);
    var search := SearchFrom(cfg, st.logins, p, d.candidateSources, up, 0, NothingTried);
    served := search.served.Some?;
    i := if served then search.asked - 1 else 0;
    credential, m := AnonymousCredential, Manifest("", "", 0, [], []);
    if served {
      credential, m := search.served.value.0, search.served.value.1;
    }
  }

  lemma RetainedFiles(cfg: Setup, st: State, p: Principal, d: PullDecision, i: nat, credential: Credential,
                      m: Manifest, up: Upstream)
    requires i < |d.candidateSources|
    ensures Retained(cfg, st, p, d, i, credential, m, up).0.files == ManifestCached(cfg.hash, st.files, m, up.blob).0
  {}

  lemma FetchHappened(cfg: Setup, st: State, p: Principal, d: PullDecision, up: Upstream)
    requires FetchFrom(cfg, st, p, d, up).Some? && AnswersInForm(cfg, up) && st.now > 0
    requires cfg.engine.ResolvePull(d.logicalRepository, d.reference) == Success(d)
    ensures var e := FetchFrom(cfg, st, p, d, up).value; Happened(cfg, st.now, e) && Remembers(st, p, d, up, e)
  {
    var served, i, credential, m := Serving(cfg, st, p, d, up);
    assert Happened(cfg, st.now, NewFetch(st, p, d, i, credential, m, up));
  }

  lemma FilesOnlyGrow(cfg: Setup, st: State, p: Principal, d: PullDecision, up: Upstream)
    requires Addressed(cfg.hash, st.files)
    ensures FilesGrow(cfg.hash, st.files, FromSources(cfg, st, p, d, up).0.files)
  {
    var served, i, credential, m := Serving(cfg, st, p, d, up);
    if served {
      RetainedFiles(cfg, st, p, d, i, credential, m, up);
      ManifestAndBlobsAreStored(cfg.hash, st.files, m, up.blob);
    }
  }

  lemma FetchedIsStored(cfg: Setup, st: State, p: Principal, d: PullDecision, up: Upstream)
    requires Addressed(cfg.hash, st.files) && FetchFrom(cfg, st, p, d, up).Some?
    ensures forall digest :: FetchFrom(cfg, st, p, d, up).value.Has(digest) ==>
              Open(FromSources(cfg, st, p, d, up).0.files, digest).Some?
  {
    var served, i, credential, m := Serving(cfg, st, p, d, up);
    RetainedFiles(cfg, st, p, d, i, credential, m, up);
    ManifestAndBlobsAreStored(cfg.hash, st.files, m, up.blob);
  }

  lemma RetainedSucceeds(cfg: Setup, st: State, p: Principal, d: PullDecision, i: nat, credential: Credential,
                         m: Manifest, up: Upstream)
    requires i < |d.candidateSources|
    ensures var r := Retained(cfg, st, p, d, i, credential, m, up).1;
            && (r.Success? ==> Retainable(cfg, st, p, d, i, credential, m, up) && r.value.manifest == m)
            && (r.Failure? ==>
                r.error == if ManifestCached(cfg.hash, st.files, m, up.blob).1 then BadRecord else CacheFailed)
            && (!IsDigest(d.reference) ==>
                  (r.Success? <==> Retainable(cfg, st, p, d, i, credential, m, up)
                                   && NewFetch(st, p, d, i, credential, m, up).mapped))
  {}

  /** A pull of a tag from the sources succeeds exactly when its fetch maps the tag, and returns what it fetched. */
  lemma SuccessIsFetched(cfg: Setup, st: State, p: Principal, d: PullDecision, up: Upstream)
    ensures var r := FromSources(cfg, st, p, d, up).1;
            var fetch := FetchFrom(cfg, st, p, d, up);
            && (r.Success? ==> fetch.Some? && fetch.value.manifest == r.value.manifest)
            && (!IsDigest(d.reference) ==> (r.Success? <==> fetch.Some? && fetch.value.mapped))
  {
    var served, i, credential, m := Serving(cfg, st, p, d, up);
    if served {
      RetainedSucceeds(cfg, st, p, d, i, credential, m, up);
    }
  }

  // ---------------------------------------------------------------- where the bytes came from

  lemma PutBrings(h: Hash, files: Files, digest: string, source: seq<Chunk>)
    ensures var (after, put) := Put(h, files, digest, source);
            && (put.Success? ==>
                Open(files, digest).Some? || (ReadAll(source).Some? && h(ReadAll(source).value) == digest))
            && (forall d :: Open(after, d).Some? ==> Open(files, d).Some? || d == digest)
  {
    var after := Put(h, files, digest, source).0;
    forall d | Open(after, d).Some? ensures Open(files, d).Some? || d == digest {
      ParseDigestIff(d, ParseDigest(d).value);
      if ParseDigest(digest).Success? { ParseDigestIff(digest, ParseDigest(digest).value); }
    }
  }

  /** Caching a blob succeeds only if the store held it or the reply streams it. */
  lemma {:induction false} BlobsAreBrought(h: Hash, files: Files, digests: seq<string>, replies: nat -> BlobReply,
                                           i: nat, digest: string)
    requires i <= |digests| && BlobsCached(h, files, digests, replies, i).1 && digest in digests[i..]
    ensures Open(files, digest).Some?
            || exists k :: i <= k < |digests| && digests[k] == digest && StreamsTo(h, replies(k), digest)
    ensures forall k :: i <= k < |digests| ==> replies(k).Streamed?
    decreases |digests| - i
  {
    var next := Put(h, files, digests[i], replies(i).chunks).0;
    PutBrings(h, files, digests[i], replies(i).chunks);
    assert digests[i..][1..] == digests[i + 1..];
    if i + 1 < |digests| {
      BlobsAreBrought(h, next, digests, replies, i + 1, if digest in digests[i + 1..] then digest else digests[i + 1]);
    }
  }

  // A fetch accounts for an object: it streamed it, or the store held it before.
  predicate Accounts(h: Hash, e: Fetch, digest: string) { e.Streams(h, digest) || digest in e.held }

  ghost predicate AllAccounted(h: Hash, e: Fetch) { forall digest :: e.Has(digest) ==> Accounts(h, e, digest) }

  // Whether the upstream streams, under one of the indices of every blob, the bytes of the blob.
  predicate Honest(h: Hash, m: Manifest, blob: nat -> BlobReply) {
    forall digest | digest in m.blobs ::
      exists k | 0 <= k < |m.blobs| :: m.blobs[k] == digest && StreamsTo(h, blob(k), digest)
  }

  ghost predicate AllStreamed(h: Hash, e: Fetch) { forall digest :: e.Has(digest) ==> e.Streams(h, digest) }

  ghost predicate HonestUpstream(h: Hash, up: Upstream) {
    forall i :: up.manifest(i).Found? ==> Honest(h, up.manifest(i).manifest, up.blob)
  }

  lemma NewFetchIsAccounted(cfg: Setup, st: State, p: Principal, d: PullDecision, i: nat, credential: Credential,
                            m: Manifest, up: Upstream)
    requires i < |d.candidateSources| && ManifestCached(cfg.hash, st.files, m, up.blob).1
             && Parses(cfg.hash, cfg.decode, m)
    ensures AllAccounted(cfg.hash, NewFetch(st, p, d, i, credential, m, up))
  {
    var e := NewFetch(st, p, d, i, credential, m, up);
    var next := Put(cfg.hash, st.files, m.digest, [Chunk(m.content)]).0;
    PutBrings(cfg.hash, st.files, m.digest, [Chunk(m.content)]);
    assert m.digest == cfg.hash(m.content);
    forall digest | e.Has(digest) ensures Accounts(cfg.hash, e, digest) {
      if digest != m.digest {
        assert digest in m.blobs[0..];
        BlobsAreBrought(cfg.hash, next, m.blobs, up.blob, 0, digest);
        if k :| 0 <= k < |m.blobs| && m.blobs[k] == digest && StreamsTo(cfg.hash, up.blob(k), digest) {
          assert e.replies[k] == up.blob(k);
        }
      }
    }
  }

  /** A fetch of a manifest that does not name its own digest streamed every blob exactly when the upstream was
      honest about them. */
  lemma StreamsIffHonest(cfg: Setup, st: State, p: Principal, d: PullDecision, i: nat, credential: Credential,
                         m: Manifest, up: Upstream)
    requires i < |d.candidateSources| && Parses(cfg.hash, cfg.decode, m)
    ensures var e := NewFetch(st, p, d, i, credential, m, up);
            && (Honest(cfg.hash, m, up.blob) ==> AllStreamed(cfg.hash, e))
            && (m.digest !in m.blobs && AllStreamed(cfg.hash, e) ==> Honest(cfg.hash, m, up.blob))
  {
    var e := NewFetch(st, p, d, i, credential, m, up);
    assert m.digest == cfg.hash(m.content);
    forall digest | digest in m.blobs && digest != m.digest
      ensures e.Streams(cfg.hash, digest) <==>
              exists k | 0 <= k < |m.blobs| :: m.blobs[k] == digest && StreamsTo(cfg.hash, up.blob(k), digest) {
      if k :| 0 <= k < |m.blobs| && m.blobs[k] == digest && StreamsTo(cfg.hash, up.blob(k), digest) {
        assert e.replies[k] == up.blob(k);
      }
      if k :| 0 <= k < |e.replies| && m.blobs[k] == digest && StreamsTo(cfg.hash, e.replies[k], digest) {
        assert e.replies[k] == up.blob(k);
      }
    }
    if m.digest !in m.blobs && AllStreamed(cfg.hash, e) {
      assert forall digest :: digest in m.blobs ==> e.Has(digest);
    }
  }

  /** A fetch that succeeds streamed every blob that the store did not hold; and all of them exactly when the
      upstream was honest about them, unless the manifest names its own digest. */
  lemma FetchIsAccounted(cfg: Setup, st: State, p: Principal, d: PullDecision, up: Upstream)
    requires FetchFrom(cfg, st, p, d, up).Some? && AnswersInForm(cfg, up)
    ensures var e := FetchFrom(cfg, st, p, d, up).value;
            && AllAccounted(cfg.hash, e)
            && (Honest(cfg.hash, e.manifest, up.blob) ==> AllStreamed(cfg.hash, e))
            && (e.manifest.digest !in e.manifest.blobs && AllStreamed(cfg.hash, e) ==>
                Honest(cfg.hash, e.manifest, up.blob))
            && (HonestUpstream(cfg.hash, up) ==> Honest(cfg.hash, e.manifest, up.blob))
  {
    var served, i, credential, m := Serving(cfg, st, p, d, up);
    NewFetchIsAccounted(cfg, st, p, d, i, credential, m, up);
    StreamsIffHonest(cfg, st, p, d, i, credential, m, up);
  }

  // What a fetch leaves: its bindings, and its tag if it mapped one.
  ghost predicate Leaves(st: State, after: State, e: Fetch) {
    && after == State(st.now, after.files, after.tags, after.bindings, st.logins)
    && after.bindings == AllUpserted(st.bindings, NewBindings(e.d, e.Source(), e.manifest, e.credential, e.p), st.now)
    && after.tags == if e.mapped then st.tags[(e.d.logicalRepository, e.d.reference) := MappingOf(e)] else st.tags
  }

  lemma RetainedLeaves(cfg: Setup, st: State, p: Principal, d: PullDecision, i: nat, credential: Credential,
                       m: Manifest, up: Upstream)
    requires st.now > 0 && i < |d.candidateSources|
    ensures var after := Retained(cfg, st, p, d, i, credential, m, up).0;
            if Retainable(cfg, st, p, d, i, credential, m, up)
              then Leaves(st, after, NewFetch(st, p, d, i, credential, m, up))
            else after == st.(files := after.files)
  {}

  // A pull from the sources leaves what its fetch does, or only adds files.
  lemma SourcesLeave(cfg: Setup, st: State, p: Principal, d: PullDecision, up: Upstream)
    requires st.now > 0
    ensures var after := FromSources(cfg, st, p, d, up).0;
            var fetch := FetchFrom(cfg, st, p, d, up);
            if fetch.Some? then Leaves(st, after, fetch.value) else after == st.(files := after.files)
  {
    var served, i, credential, m := Serving(cfg, st, p, d, up);
    if served {
      RetainedLeaves(cfg, st, p, d, i, credential, m, up);
    }
  }

  lemma FetchIsRetained(cfg: Setup, sys: System, p: Principal, d: PullDecision, up: Upstream)
    requires Coherent(cfg, sys) && AnswersInForm(cfg, up)
    requires cfg.engine.ResolvePull(d.logicalRepository, d.reference) == Success(d)
    ensures Coherent(cfg,
                     System(FromSources(cfg, sys.st, p, d, up).0, Logged(sys.log, FetchFrom(cfg, sys.st, p, d, up))))
  {
    SourcesLeave(cfg, sys.st, p, d, up);
    FilesOnlyGrow(cfg, sys.st, p, d, up);
    var files := FromSources(cfg, sys.st, p, d, up).0.files;
    if FetchFrom(cfg, sys.st, p, d, up).Some? {
      FetchedIsStored(cfg, sys.st, p, d, up);
      FetchHappened(cfg, sys.st, p, d, up);
      RecordedIsCoherent(cfg, sys, FetchFrom(cfg, sys.st, p, d, up).value, files);
    } else {
      StoreMayGrow(cfg, sys, files);
    }
  }

  lemma PullIsCoherent(cfg: Setup, sys: System, request: PullRequest, up: Upstream)
    requires Coherent(cfg, sys) && Enabled(cfg, sys, Pulls(request, up))
    ensures Coherent(cfg, Apply(cfg, sys, Pulls(request, up)))
  {
    var decision := cfg.engine.ResolvePull(request.repository, request.reference);
    if decision.Success? {
      DecisionIsStable(cfg.engine, request.repository, request.reference, decision.value);
      FetchIsRetained(cfg, sys, request.principal, decision.value, up);
    }
  }

  lemma PushIsCoherent(cfg: Setup, sys: System, push: PushRequest, f: Fake, faults: Faults)
    requires Coherent(cfg, sys)
    ensures Coherent(cfg, Apply(cfg, sys, Pushes(push, f, faults)))
    ensures Pushed(cfg, sys.st, push, f, faults).0.logins == sys.st.logins
  {
    PushOnlyAddsToStore(cfg, sys.st, push, f, faults);
    StoreMayGrow(cfg, sys, Pushed(cfg, sys.st, push, f, faults).0.files);
  }

  lemma FetchLeavesLogins(cfg: Setup, st: State, p: Principal, d: PullDecision, up: Upstream, search: Search)
    requires search.served.Some? ==> 0 < search.asked <= |d.candidateSources|
    ensures var after := Settled(cfg, st, p, d, up, search).0; after.logins == st.logins && after.now == st.now
  {}

  lemma PullLeavesLogins(cfg: Setup, st: State, request: PullRequest, up: Upstream)
    ensures Pull(cfg, st, request, up).0.logins == st.logins && Pull(cfg, st, request, up).0.now == st.now
  {
    var decision := cfg.engine.ResolvePull(request.repository, request.reference);
    if decision.Success? {
      var d := decision.value;
      FetchLeavesLogins(cfg, st, request.principal, d, up,
                        SearchFrom(cfg, st.logins, request.principal, d.candidateSources, up, 0, NothingTried));
    }
  }

  lemma ActionIsCoherent(cfg: Setup, sys: System, action: Action)
    requires Coherent(cfg, sys) && Enabled(cfg, sys, action)
    ensures Coherent(cfg, Apply(cfg, sys, action)) && sys.log <= Apply(cfg, sys, action).log
    ensures !action.ChangesAccounts? ==> Apply(cfg, sys, action).st.logins == sys.st.logins
  {
    match action {
      case Pulls(request, up) =>
        PullIsCoherent(cfg, sys, request, up);
        PullLeavesLogins(cfg, sys.st, request, up);
      case Pushes(push, f, faults) => PushIsCoherent(cfg, sys, push, f, faults);
      case Uploads(digest, source) =>
        PutGrows(cfg.hash, sys.st.files, digest, source);
        StoreMayGrow(cfg, sys, Put(cfg.hash, sys.st.files, digest, source).0);
      case ChangesAccounts(_) =>
      case Waits(until) =>
        forall e | e in sys.log ensures Happened(cfg, until, e) { TimePasses(cfg, sys.st.now, until, e); }
    }
  }

  ghost predicate Executes(cfg: Setup, sys: System, actions: seq<Action>, end: System)
    decreases |actions|
  {
    if actions == [] then sys == end
    else Enabled(cfg, sys, actions[0]) && Executes(cfg, Apply(cfg, sys, actions[0]), actions[1..], end)
  }

  predicate LeavesAccounts(actions: seq<Action>) { forall i | 0 <= i < |actions| :: !actions[i].ChangesAccounts? }

  lemma {:induction false} RunIsCoherent(cfg: Setup, sys: System, actions: seq<Action>, end: System)
    requires Coherent(cfg, sys) && Executes(cfg, sys, actions, end)
    ensures Coherent(cfg, end) && sys.log <= end.log
    ensures LeavesAccounts(actions) ==> end.st.logins == sys.st.logins
    decreases |actions|
  {
    if actions != [] {
      ActionIsCoherent(cfg, sys, actions[0]);
      RunIsCoherent(cfg, Apply(cfg, sys, actions[0]), actions[1..], end);
    }
  }

  function Start(now: int, logins: Logins): System { System(State(now, map[], map[], [], logins), []) }

  lemma StartIsCoherent(cfg: Setup, now: int, logins: Logins)
    requires now > 0
    ensures Coherent(cfg, Start(now, logins))
  {}

  // ---------------------------------------------------------------- runs of honest upstreams

  ghost predicate HonestRun(h: Hash, actions: seq<Action>) {
    forall i :: 0 <= i < |actions| && actions[i].Pulls? ==> HonestUpstream(h, actions[i].up)
  }

  ghost predicate LogAccounted(h: Hash, log: seq<Fetch>) { forall e :: e in log ==> AllAccounted(h, e) }

  ghost predicate LogStreamed(h: Hash, log: seq<Fetch>) { forall e :: e in log ==> AllStreamed(h, e) }

  lemma PullIsAccounted(cfg: Setup, st: State, request: PullRequest, up: Upstream) returns (fetch: Option<Fetch>)
    requires AnswersInForm(cfg, up)
    ensures fetch == FetchOf(cfg, st, request, up)
    ensures fetch.Some? ==>
              AllAccounted(cfg.hash, fetch.value)
                && (HonestUpstream(cfg.hash, up) ==> AllStreamed(cfg.hash, fetch.value))
  {
    fetch := FetchOf(cfg, st, request, up);
    if fetch.Some? {
      var d := cfg.engine.ResolvePull(request.repository, request.reference).value;
      FetchIsAccounted(cfg, st, request.principal, d, up);
    }
  }

  lemma ActionLogs(cfg: Setup, sys: System, action: Action) returns (fetch: Option<Fetch>)
    requires Enabled(cfg, sys, action)
    ensures Apply(cfg, sys, action).log == Logged(sys.log, fetch)
    ensures fetch.Some? ==> AllAccounted(cfg.hash, fetch.value)
    ensures fetch.Some? && (action.Pulls? ==> HonestUpstream(cfg.hash, action.up)) ==>
              AllStreamed(cfg.hash, fetch.value)
  {
    fetch := None;
    if action.Pulls? {
      fetch := PullIsAccounted(cfg, sys.st, action.request, action.up);
    }
  }

  lemma ActionIsAccounted(cfg: Setup, sys: System, action: Action)
    requires Enabled(cfg, sys, action)
    ensures LogAccounted(cfg.hash, sys.log) ==> LogAccounted(cfg.hash, Apply(cfg, sys, action).log)
    ensures (action.Pulls? ==> HonestUpstream(cfg.hash, action.up)) && LogStreamed(cfg.hash, sys.log) ==>
              LogStreamed(cfg.hash, Apply(cfg, sys, action).log)
  {
    var fetch := ActionLogs(cfg, sys, action);
  }

  /** Every fetch of a run streamed each of its objects, or the store held it before; and in a run of honest
      upstreams every fetch streamed them all. */
  lemma {:induction false} RunIsAccounted(cfg: Setup, sys: System, actions: seq<Action>, end: System)
    requires Executes(cfg, sys, actions, end)
    ensures LogAccounted(cfg.hash, sys.log) ==> LogAccounted(cfg.hash, end.log)
    ensures HonestRun(cfg.hash, actions) && LogStreamed(cfg.hash, sys.log) ==> LogStreamed(cfg.hash, end.log)
    decreases |actions|
  {
    if actions != [] {
      ActionIsAccounted(cfg, sys, actions[0]);
      RunIsAccounted(cfg, Apply(cfg, sys, actions[0]), actions[1..], end);
    }
  }
}
