// internal/resolution/push.go: staged blobs and then the manifest go to one destination.

module Pushing {
  import opened Text
  import opened Policy
  import opened Content
  import opened Registry
  import opened Metadata
  import opened Tokens
  import opened Resolution
  import opened Access
  import opened PullResolvers

  datatype PushRequest = PushRequest(repository: string, reference: string, manifest: Manifest, principal: Principal)

  datatype PushError = Rejected(PolicyError) | NotLocal | NoCredential(SourceError) | NoDestination | ManifestMismatch
                     | NotStored(StoreError) | BlobNotStaged | DestinationUnauthenticated | DestinationDown
                     | DestinationFailed(RegistryError)

  datatype PushResult = PushResult(route: string, destination: string, logical: string, physical: string,
                                   reference: string,
                                   digest: string, credential: Credential)

  // Whether the call with this index to the destination fails outright: one call a blob, then the manifest.
  type Faults = nat -> Option<RegistryError>

  function FromDestination(e: RegistryError): PushError {
    if e == Authentication then DestinationUnauthenticated else if e == Unavailable
      then DestinationDown else DestinationFailed(e)
  }

  function BlobPublished(h: Hash, files: Files, f: Fake, physical: string, digest: string,
                         fault: Option<RegistryError>): (Fake, Option<PushError>) {
    if ParseDigest(digest).Failure? then (f, Some(NotStored(UnsupportedDigest)))
    else
      match Open(files, digest)
      case None => (f, Some(BlobNotStaged))
      case Some(body) =>
        if fault.Some? then (f, Some(FromDestination(fault.value)))
        else
          var (after, put) := BlobPut(h, f, physical, digest, [Chunk(body)]);
          (after, if put.Success? then None else Some(FromDestination(put.error)))
  }

  function BlobsPublished(h: Hash, files: Files, f: Fake, physical: string, digests: seq<string>, faults: Faults,
                          i: nat): (Fake, Option<PushError>)
    requires i <= |digests|
    decreases |digests| - i
  {
    if i == |digests| then (f, None)
    else
      var (after, error) := BlobPublished(h, files, f, physical, digests[i], faults(i));
      if error.Some? then (after, error) else BlobsPublished(h, files, after, physical, digests, faults, i + 1)
  }

  function ManifestPublished(f: Fake, d: PushDecision, m: Manifest,
                             fault: Option<RegistryError>): (Fake, Option<PushError>) {
    if fault.Some? then (f, Some(FromDestination(fault.value)))
    else
      var (after, put) := ManifestPut(f, d.physicalRepository, d.reference, m);
      (after, if put.Success? then None else Some(FromDestination(put.error)))
  }

  function Stored(put: Result<Descriptor, StoreError>): Option<PushError> {
    match put
    case Success(_) => None
    case Failure(e) => Some(if e == DigestMismatch then ManifestMismatch else NotStored(e))
  }

  function Published(cfg: Setup, st: State, d: PushDecision, m: Manifest, f: Fake,
                     faults: Faults): (State, Fake, Option<PushError>) {
    var (files, put) := Put(cfg.hash, st.files, m.digest, [Chunk(m.content)]);
    var after := st.(files := files);
    if put.Failure? then (after, f, Stored(put))
    else
      var (filled, error) := BlobsPublished(cfg.hash, files, f, d.physicalRepository, m.blobs, faults, 0);
      if error.Some? then (after, filled, error)
      else
        var (tagged, refused) := ManifestPublished(filled, d, m, faults(|m.blobs|));
        (after, tagged, refused)
  }

  // Which credential a push uses, RouteAuthorizer having let only local users through.
  function Destination(cfg: Setup, logins: Logins, p: Principal, destination: string): Result<Credential, PushError> {
    if LocalID(p) == "" then Failure(NotLocal)
    else if !cfg.provider then
      if destination in cfg.connectors then Success(AnonymousCredential) else Failure(NoDestination)
    else
      match ConnectorFor(cfg, logins, p, destination, PushOperation)
      case Failure(e) => Failure(NoCredential(e))
      case Success(found) => if found.0 then Success(found.1) else Failure(NoDestination)
  }

  /** Push, `f` being the registry at the destination. */
  function Pushed(cfg: Setup, st: State, request: PushRequest, f: Fake,
                  faults: Faults): (State, Fake, Result<PushResult, PushError>) {
    match cfg.engine.ResolvePush(request.repository, request.reference)
    case Failure(e) => (st, f, Failure(Rejected(e)))
    case Success(d) =>
      match Destination(cfg, st.logins, request.principal, d.destination)
      case Failure(e) => (st, f, Failure(e))
      case Success(credential) =>
        var (after, published, error) := Published(cfg, st, d, request.manifest, f, faults);
        if error.Some? then (after, published, Failure(error.value))
        else
          (after, published, Success(PushResult(d.routeName, d.destination, d.logicalRepository, d.physicalRepository,
                                                d.reference, request.manifest.digest, credential)))
  }

  class PushResolver {
    const cfg: Setup
    const store: FileStore
    var logins: Logins

    constructor (cfg: Setup, store: FileStore, logins: Logins)
      ensures this.cfg == cfg && this.store == store && this.logins == logins
    {
      this.cfg, this.store, this.logins := cfg, store, logins;
    }

    method PublishBlob(destination: FakeConnector, physical: string, digest: string, fault: Option<RegistryError>)
      returns (error: Option<PushError>)
      requires destination.hash == cfg.hash
      modifies destination
      ensures (destination.View(), error) ==
                BlobPublished(cfg.hash, store.files, old(destination.View()), physical, digest, fault)
    {
      if ParseDigest(digest).Failure? { return Some(NotStored(UnsupportedDigest)); }
      var body := Open(store.files, digest);
      if body == None { return Some(BlobNotStaged); }
      if fault.Some? { return Some(FromDestination(fault.value)); }
      var put := destination.PutBlob(physical, digest, [Chunk(body.value)]);
      error := if put.Success? then None else Some(FromDestination(put.error));
    }

    method Publish(d: PushDecision, m: Manifest, destination: FakeConnector, faults: Faults, temp: string,
                   ghost st: State)
      returns (error: Option<PushError>)
      requires store.hash == destination.hash == cfg.hash && Temporary(temp) && temp !in store.files
               && st.files == store.files
      modifies store, destination
      ensures (st.(files := store.files), destination.View(), error) ==
                Published(cfg, st, d, m, old(destination.View()), faults)
    {
      var put := store.PutBlob(m.digest, [Chunk(m.content)], temp);
      if put.Failure? { return Stored(put); }
      ghost var whole :=
        BlobsPublished(cfg.hash, store.files, destination.View(), d.physicalRepository, m.blobs, faults, 0);
      ghost var files := store.files;
      for i := 0 to |m.blobs|
        invariant store.files == files
        invariant whole ==
                    BlobsPublished(cfg.hash, store.files, destination.View(), d.physicalRepository, m.blobs, faults, i)
      {
        error := PublishBlob(destination, d.physicalRepository, m.blobs[i], faults(i));
        if error.Some? { return; }
      }
      if faults(|m.blobs|).Some? { return Some(FromDestination(faults(|m.blobs|).value)); }
      var described := destination.PutManifest(d.physicalRepository, d.reference, m);
      error := if described.Success? then None else Some(FromDestination(described.error));
    }

    method Push(request: PushRequest, destination: FakeConnector, faults: Faults, temp: string, ghost st: State)
      returns (r: Result<PushResult, PushError>)
      requires store.hash == destination.hash == cfg.hash && Temporary(temp) && temp !in store.files
      requires st.files == store.files && st.logins == logins
      modifies store, destination
      ensures (st.(files := store.files), destination.View(), r) ==
                Pushed(cfg, st, request, old(destination.View()), faults)
    {
      var decision := cfg.engine.ResolvePush(request.repository, request.reference);
      if decision.Failure? { return Failure(Rejected(decision.error)); }
      var d := decision.value;
      if !request.principal.LocalUser? || request.principal.id == "" { return Failure(NotLocal); }
      var connected, credential := d.destination in cfg.connectors, AnonymousCredential;
      if cfg.provider {
        match ConnectorFor(cfg, logins, request.principal, d.destination, PushOperation) {
          case Failure(e) => return Failure(NoCredential(e));
          case Success(found) => connected, credential := found.0, found.1;
        }
      }
      if !connected { return Failure(NoDestination); }
      var error := Publish(d, request.manifest, destination, faults, temp, st);
      if error.Some? { return Failure(error.value); }
      r := Success(PushResult(d.routeName, d.destination, d.logicalRepository, d.physicalRepository, d.reference,
                              request.manifest.digest, credential));
    }
  }

  // ---------------------------------------------------------------- what reaches the destination

  lemma OneChunk(body: Bytes)
    ensures ReadAll([Chunk(body)]) == Some(body)
  {
    assert ReadAll([Chunk(body)][1..]) == Some([]);
    assert body + [] == body;
  }

  lemma OpenedIsAddressed(h: Hash, files: Files, digest: string)
    requires Addressed(h, files) && Open(files, digest).Some?
    ensures h(Open(files, digest).value) == digest && ParseDigest(digest).Success?
  {
    ParseDigestIff(digest, ParseDigest(digest).value);
  }

  // Every blob at the destination was there before or came from the store.
  ghost predicate Filled(files: Files, f: Fake, after: Fake) {
    && after.available == f.available && after.manifests == f.manifests
    && (forall d :: d in f.blobs ==> d in after.blobs)
    && (forall d :: d in after.blobs ==>
        (d in f.blobs && after.blobs[d] == f.blobs[d]) || Open(files, d) == Some(after.blobs[d]))
  }

  lemma BlobArrives(h: Hash, files: Files, f: Fake, physical: string, digest: string, fault: Option<RegistryError>)
    requires Addressed(h, files) && f.available
    ensures var (after, error) := BlobPublished(h, files, f, physical, digest, fault);
            && Filled(files, f, after)
            && (error == None <==> fault == None && Open(files, digest).Some?)
            && (error == None ==> digest in after.blobs && Some(after.blobs[digest]) == Open(files, digest))
            && (fault == None && error.Some? ==> !error.value.DestinationFailed?)
  {
    if Open(files, digest).Some? {
      OpenedIsAddressed(h, files, digest);
      OneChunk(Open(files, digest).value);
    }
  }

  lemma FilledTwice(files: Files, f: Fake, next: Fake, after: Fake)
    requires Filled(files, f, next) && Filled(files, next, after)
    ensures Filled(files, f, after)
  {}

  // The blobs from `i` on are at the destination as the store has them.
  ghost predicate Arrived(files: Files, after: Fake, digests: seq<string>, i: nat) {
    forall k :: i <= k < |digests| ==>
      digests[k] in after.blobs && Some(after.blobs[digests[k]]) == Open(files, digests[k])
  }

  lemma FirstArrived(files: Files, next: Fake, after: Fake, digests: seq<string>, i: nat)
    requires i < |digests| && Filled(files, next, after) && Arrived(files, after, digests, i + 1)
    requires digests[i] in next.blobs && Some(next.blobs[digests[i]]) == Open(files, digests[i])
    ensures Arrived(files, after, digests, i)
  {}

  /** When the blobs are published the destination holds every one of them as it is in the store. */
  lemma {:induction false} BlobsArrive(h: Hash, files: Files, f: Fake, physical: string, digests: seq<string>,
                                       faults: Faults, i: nat)
    requires Addressed(h, files) && f.available && i <= |digests|
    ensures var (after, error) := BlobsPublished(h, files, f, physical, digests, faults, i);
            Filled(files, f, after) && (error == None ==> Arrived(files, after, digests, i))
    decreases |digests| - i
  {
    if i < |digests| {
      var (next, error) := BlobPublished(h, files, f, physical, digests[i], faults(i));
      BlobArrives(h, files, f, physical, digests[i], faults(i));
      if error == None {
        BlobsArrive(h, files, next, physical, digests, faults, i + 1);
        var (after, refused) := BlobsPublished(h, files, next, physical, digests, faults, i + 1);
        FilledTwice(files, f, next, after);
        if refused == None {
          FirstArrived(files, next, after, digests, i);
        }
      }
    }
  }

  // No call to the destination from the one with index `i` to the one before `n` fails outright.
  predicate Calm(faults: Faults, i: nat, n: nat) { forall k | i <= k < n :: faults(k) == None }

  /** They are published exactly when all are staged and no call fails; the destination refuses none. */
  lemma {:induction false} BlobsPublishIff(h: Hash, files: Files, f: Fake, physical: string, digests: seq<string>,
                                           faults: Faults, i: nat)
    requires Addressed(h, files) && f.available && i <= |digests|
    ensures var error := BlobsPublished(h, files, f, physical, digests, faults, i).1;
            && (error == None <==>
                Calm(faults, i, |digests|) && forall k :: i <= k < |digests| ==> Open(files, digests[k]).Some?)
            && (Calm(faults, i, |digests|) && error.Some? ==> !error.value.DestinationFailed?)
    decreases |digests| - i
  {
    if i < |digests| {
      var (next, error) := BlobPublished(h, files, f, physical, digests[i], faults(i));
      BlobArrives(h, files, f, physical, digests[i], faults(i));
      assert Calm(faults, i, |digests|) <==> faults(i) == None && Calm(faults, i + 1, |digests|);
      if error == None {
        BlobsPublishIff(h, files, next, physical, digests, faults, i + 1);
      }
    }
  }

  lemma ManifestIsStored(h: Hash, files: Files, m: Manifest)
    requires Addressed(h, files)
    ensures var (after, put) := Put(h, files, m.digest, [Chunk(m.content)]);
            && Addressed(h, after)
            && (put.Success? <==>
                ParseDigest(m.digest).Success? && (Open(files, m.digest).Some? || h(m.content) == m.digest))
            && (forall d :: Open(files, d).Some? ==> Open(after, d) == Open(files, d))
            && (put.Success? ==> forall d :: Open(after, d).Some? <==> Open(files, d).Some? || d == m.digest)
  {
    PutAddsOnly(h, files, m.digest, [Chunk(m.content)]);
    OneChunk(m.content);
    var after := Put(h, files, m.digest, [Chunk(m.content)]).0;
    forall d | Open(after, d).Some? ensures Open(files, d).Some? || d == m.digest {
      ParseDigestIff(d, ParseDigest(d).value);
      if ParseDigest(m.digest).Success? { ParseDigestIff(m.digest, ParseDigest(m.digest).value); }
    }
  }

  predicate Storable(h: Hash, files: Files, m: Manifest) {
    ParseDigest(m.digest).Success? && (Open(files, m.digest).Some? || h(m.content) == m.digest)
  }

  // What a push leaves at its destination.
  ghost predicate Delivered(files: Files, f: Fake, physical: string, reference: string, m: Manifest) {
    && f.available && Resolved(f, physical, reference) == Success(m)
    && forall d :: d in m.blobs ==> d in f.blobs && Some(f.blobs[d]) == Open(files, d)
  }

  // What a push leaves in the store: the manifest at most, and nothing that was there is lost.
  ghost predicate StoreGrew(h: Hash, before: State, after: State) {
    && Addressed(h, after.files) && after == before.(files := after.files)
    && forall digest :: Open(before.files, digest).Some? ==> Open(after.files, digest) == Open(before.files, digest)
  }

  /** Every blob reaches the destination before the manifest does, so the manifest is never refused. */
  lemma Delivery(cfg: Setup, st: State, d: PushDecision, m: Manifest, f: Fake, faults: Faults)
    requires Addressed(cfg.hash, st.files) && f.available
    ensures var (after, published, error) := Published(cfg, st, d, m, f, faults);
            && StoreGrew(cfg.hash, st, after)
            && (error == None ==>
                  && Delivered(after.files, published, d.physicalRepository, d.reference, m)
                  && Open(after.files, m.digest).Some?)
  {
    ManifestIsStored(cfg.hash, st.files, m);
    var (files, put) := Put(cfg.hash, st.files, m.digest, [Chunk(m.content)]);
    var (filled, error) := BlobsPublished(cfg.hash, files, f, d.physicalRepository, m.blobs, faults, 0);
    if put.Success? {
      BlobsArrive(cfg.hash, files, f, d.physicalRepository, m.blobs, faults, 0);
      PutIsFound(cfg.hash, filled, d.physicalRepository, d.reference, m, "", []);
    }
  }

  // What a push needs besides permission: its manifest can be stored and its blobs are staged.
  predicate Complete(h: Hash, files: Files, m: Manifest) {
    && Storable(h, files, m)
    && forall b | b in m.blobs :: Open(files, b).Some? || b == m.digest
  }

  lemma PublishedIff(cfg: Setup, st: State, d: PushDecision, m: Manifest, f: Fake, faults: Faults)
    requires Addressed(cfg.hash, st.files) && f.available
    ensures var error := Published(cfg, st, d, m, f, faults).2;
            && (error == None <==> Complete(cfg.hash, st.files, m) && Calm(faults, 0, |m.blobs| + 1))
            && (Calm(faults, 0, |m.blobs| + 1) && error.Some? ==> !error.value.DestinationFailed?)
  {
    ManifestIsStored(cfg.hash, st.files, m);
    var (files, put) := Put(cfg.hash, st.files, m.digest, [Chunk(m.content)]);
    var (filled, error) := BlobsPublished(cfg.hash, files, f, d.physicalRepository, m.blobs, faults, 0);
    if put.Success? {
      BlobsArrive(cfg.hash, files, f, d.physicalRepository, m.blobs, faults, 0);
      BlobsPublishIff(cfg.hash, files, f, d.physicalRepository, m.blobs, faults, 0);
      PutIsFound(cfg.hash, filled, d.physicalRepository, d.reference, m, "", []);
    }
  }

  // What a push answers for a call to the destination that fails.
  predicate Reports(error: PushError, fault: RegistryError) {
    && (error == DestinationUnauthenticated <==> fault == Authentication)
    && (error == DestinationDown <==> fault == RegistryError.Unavailable)
    && (fault !in {Authentication, RegistryError.Unavailable} ==> error == DestinationFailed(fault))
  }

  // What keeps a staged blob from being published.
  predicate Obstructed(files: Files, digests: seq<string>, faults: Faults, j: nat)
    requires j < |digests|
  {
    Open(files, digests[j]) == None || faults(j).Some?
  }

  // A blob that is not staged is reported before the call for it could fail.
  predicate Blames(error: PushError, files: Files, digest: string, fault: Option<RegistryError>) {
    if ParseDigest(digest).Failure? then error == NotStored(UnsupportedDigest)
    else if Open(files, digest) == None then error == BlobNotStaged
    else fault.Some? && Reports(error, fault.value)
  }

  lemma ObstacleIsReported(h: Hash, files: Files, f: Fake, physical: string, digest: string,
                           fault: Option<RegistryError>)
    requires Open(files, digest) == None || fault.Some?
    ensures var error := BlobPublished(h, files, f, physical, digest, fault).1;
            error.Some? && Blames(error.value, files, digest, fault)
  {}

  lemma {:induction false} BlobObstacleIsReported(h: Hash, files: Files, f: Fake, physical: string,
                                                  digests: seq<string>, faults: Faults, i: nat, k: nat)
    returns (error: Option<PushError>)
    requires Addressed(h, files) && f.available && i <= k < |digests| && Obstructed(files, digests, faults, k)
    requires forall j :: i <= j < k ==> !Obstructed(files, digests, faults, j)
    ensures error == BlobsPublished(h, files, f, physical, digests, faults, i).1
    ensures error.Some? && Blames(error.value, files, digests[k], faults(k))
    decreases k - i
  {
    var published := BlobPublished(h, files, f, physical, digests[i], faults(i));
    error := published.1;
    if i == k {
      ObstacleIsReported(h, files, f, physical, digests[k], faults(k));
    } else {
      assert !Obstructed(files, digests, faults, i);
      BlobArrives(h, files, f, physical, digests[i], faults(i));
      error := BlobObstacleIsReported(h, files, published.0, physical, digests, faults, i + 1, k);
    }
  }

  /** The first obstacle decides what a push answers: a manifest that cannot be stored, then the first blob that is not
      staged or whose call fails, then the call for the manifest. */
  lemma FirstObstacleDecides(cfg: Setup, st: State, d: PushDecision, m: Manifest, f: Fake, faults: Faults, k: nat)
    requires Addressed(cfg.hash, st.files) && f.available && k <= |m.blobs|
    ensures var (files, put) := Put(cfg.hash, st.files, m.digest, [Chunk(m.content)]);
            var error := Published(cfg, st, d, m, f, faults).2;
            && (ParseDigest(m.digest).Failure? ==> error == Some(NotStored(UnsupportedDigest)))
            && (ParseDigest(m.digest).Success? && put.Failure? ==> error == Some(ManifestMismatch))
            && (put.Success? && (forall j :: 0 <= j < k ==> !Obstructed(files, m.blobs, faults, j)) ==>
                  && (k < |m.blobs| && Obstructed(files, m.blobs, faults, k) ==>
                        error.Some? && Blames(error.value, files, m.blobs[k], faults(k)))
                  && (k == |m.blobs| && faults(k).Some? ==> error.Some? && Reports(error.value, faults(k).value)))
  {
    ManifestIsStored(cfg.hash, st.files, m);
    OneChunk(m.content);
    var (files, put) := Put(cfg.hash, st.files, m.digest, [Chunk(m.content)]);
    if put.Success? && (forall j :: 0 <= j < k ==> !Obstructed(files, m.blobs, faults, j)) {
      if k < |m.blobs| && Obstructed(files, m.blobs, faults, k) {
        var error := BlobObstacleIsReported(cfg.hash, files, f, d.physicalRepository, m.blobs, faults, 0, k);
      } else if k == |m.blobs| {
        forall j | 0 <= j < k ensures faults(j) == None && Open(files, m.blobs[j]).Some? {
          assert !Obstructed(files, m.blobs, faults, j);
        }
        BlobsPublishIff(cfg.hash, files, f, d.physicalRepository, m.blobs, faults, 0);
      }
    }
  }

  // Who may push to a destination, and with which credential: local users only, with what is due them there.
  predicate PushDue(cfg: Setup, logins: Logins, p: Principal, destination: string, credential: Credential) {
    && LocalID(p) != ""
    && if !cfg.provider then destination in cfg.connectors && credential == AnonymousCredential
       else Due(cfg, logins, p, destination, PushOperation, credential)
            && (destination in cfg.connectors || credential == UserCredential)
  }

  lemma DestinationIff(cfg: Setup, logins: Logins, p: Principal, destination: string, credential: Credential)
    ensures Destination(cfg, logins, p, destination) == Success(credential) <==>
              PushDue(cfg, logins, p, destination, credential)
    ensures Destination(cfg, logins, p, destination) == Failure(NotLocal) <==> LocalID(p) == ""
  {
    ConnectorIff(cfg, logins, p, destination, PushOperation, credential);
  }

  // Everything a push by a route needs.
  ghost predicate Permitted(al: Alphabet, config: Policy.Config, cfg: Setup, st: State, request: PushRequest,
                            name: string,
                            route: Route, credential: Credential) {
    && NormalizeRepository(al, request.repository) == Success(name) && Takes(config.routes, name, route)
    && !route.pushDenied && route.pushDestination != ""
    && PushDue(cfg, st.logins, request.principal, route.pushDestination, credential)
    && Complete(cfg.hash, st.files, request.manifest)
  }

  lemma PermittedDecides(al: Alphabet, config: Policy.Config, cfg: Setup, st: State, request: PushRequest, name: string,
                         route: Route, credential: Credential)
    requires cfg.engine == Built(al, config) && Permitted(al, config, cfg, st, request, name, route, credential)
    ensures cfg.engine.ResolvePush(request.repository, request.reference) ==
            Success(PushDecision(route.name, name, route.rewrite.Apply(name), request.reference, route.pushDestination))
    ensures Destination(cfg, st.logins, request.principal, route.pushDestination) == Success(credential)
  {
    var d := PushDecision(route.name, name, route.rewrite.Apply(name), request.reference, route.pushDestination);
    assert Policy.Pushes(route, d);
    PushDecisionIff(al, config, request.repository, request.reference, d);
    DestinationIff(cfg, st.logins, request.principal, route.pushDestination, credential);
  }

  /** A push to an available registry succeeds exactly when the route that takes its repository lets it through, the
      principal is a local user to whom a credential is due at the destination, its manifest can be stored, its blobs
      are staged and no call fails; then it names that route, destination and credential. */
  lemma PushSucceedsIff(al: Alphabet, config: Policy.Config, cfg: Setup, st: State, request: PushRequest, f: Fake,
                        faults: Faults)
    requires cfg.engine == Built(al, config) && Addressed(cfg.hash, st.files) && f.available
    ensures var r := Pushed(cfg, st, request, f, faults).2;
            && (r.Success? <==>
                  && Calm(faults, 0, |request.manifest.blobs| + 1)
                  && exists name, route, credential :: Permitted(al, config, cfg, st, request, name, route, credential))
            && (r.Success? ==>
                  forall name, route, credential :: Permitted(al, config, cfg, st, request, name, route, credential) ==>
                    r.value == PushResult(route.name, route.pushDestination, name, route.rewrite.Apply(name),
                                          request.reference, request.manifest.digest, credential))
  {
    var r := Pushed(cfg, st, request, f, faults).2;
    var decision := cfg.engine.ResolvePush(request.repository, request.reference);
    if decision.Success? {
      var d := decision.value;
      PublishedIff(cfg, st, d, request.manifest, f, faults);
      PushDecisionIff(al, config, request.repository, request.reference, d);
      var route :| Takes(config.routes, d.logicalRepository, route) && Policy.Pushes(route, d);
      if r.Success? {
        DestinationIff(cfg, st.logins, request.principal, d.destination, r.value.credential);
        assert Permitted(al, config, cfg, st, request, d.logicalRepository, route, r.value.credential);
      }
    }
    forall name, route, credential | Permitted(al, config, cfg, st, request, name, route, credential)
      ensures decision ==
                Success(PushDecision(route.name, name, route.rewrite.Apply(name), request.reference,
                                     route.pushDestination))
      ensures Destination(cfg, st.logins, request.principal, route.pushDestination) == Success(credential) {
      PermittedDecides(al, config, cfg, st, request, name, route, credential);
    }
  }

  /** Short of a failing call an available registry refuses nothing. */
  lemma NoPushIsRefused(cfg: Setup, st: State, request: PushRequest, f: Fake, faults: Faults)
    requires Addressed(cfg.hash, st.files) && f.available && Calm(faults, 0, |request.manifest.blobs| + 1)
    ensures var r := Pushed(cfg, st, request, f, faults).2; r.Failure? ==> !r.error.DestinationFailed?
  {
    var decision := cfg.engine.ResolvePush(request.repository, request.reference);
    if decision.Success? {
      PublishedIff(cfg, st, decision.value, request.manifest, f, faults);
    }
  }

  /** A route that denies pushes, or has no destination, publishes and stores nothing. */
  lemma DeniedPushDoesNothing(al: Alphabet, config: Policy.Config, cfg: Setup, st: State, request: PushRequest, f: Fake,
                              faults: Faults, name: string, route: Route)
    requires cfg.engine == Built(al, config) && NormalizeRepository(al, request.repository) == Success(name)
    requires Takes(config.routes, name, route) && (route.pushDenied || route.pushDestination == "")
    ensures Pushed(cfg, st, request, f, faults) == (st, f, Failure(Rejected(PushDenied)))
  {
    NormalizeCutsEnds(al, request.repository, name);
    EngineTakes(al, config, name);
    OneRouteTakes(config.routes, name, route, FirstMatch(Built(al, config).routes, name).value);
  }

  /** A push asks nothing of the cache: whatever the bindings and the tags are, it publishes to the same effect, and
      when it succeeds the destination holds every blob the manifest names as the store has it, whoever stored it. */
  lemma PushPublishesAnyStoredBlob(cfg: Setup, st: State, request: PushRequest, f: Fake, faults: Faults,
                                   bindings: seq<Binding>, tags: Tags)
    requires Addressed(cfg.hash, st.files) && f.available
    ensures var (after, published, r) := Pushed(cfg, st, request, f, faults);
            var elsewhere := Pushed(cfg, st.(bindings := bindings, tags := tags), request, f, faults);
            && elsewhere.0 == after.(bindings := bindings, tags := tags) && elsewhere.1 == published && elsewhere.2 == r
            && (r.Success? ==> forall b :: b in request.manifest.blobs ==>
                  b in published.blobs && Some(published.blobs[b]) == Open(after.files, b))
  {
    var decision := cfg.engine.ResolvePush(request.repository, request.reference);
    if decision.Success? {
      Delivery(cfg, st, decision.value, request.manifest, f, faults);
    }
  }

  // ---------------------------------------------------------------- pulling what was pushed

  // What the metadata accepts of a pull: no empty name, and for a tag a media type and a size.
  predicate Recordable(d: PullDecision, source: string, m: Manifest) {
    && d.logicalRepository != "" && d.routeName != "" && source != "" && d.physicalRepository != ""
    && m.digest != "" && "" !in m.blobs
    && (IsDigest(d.reference) || (d.reference != "" && m.mediaType != "" && m.size >= 0))
  }

  lemma BlobBindingsAreValid(d: PullDecision, source: string, m: Manifest, credential: Credential, p: Principal,
                             blobs: seq<string>)
    requires d.logicalRepository != "" && d.routeName != "" && source != "" && d.physicalRepository != ""
             && m.digest != ""
    requires credential == UserCredential ==> LocalID(p) != ""
    ensures (forall b :: b in BlobBindings(d, source, m, credential, p, blobs) ==> ValidBinding(b)) <==> "" !in blobs
  {
    var all := BlobBindings(d, source, m, credential, p, blobs);
    forall i | 0 <= i < |blobs| ensures all[i] in all && (ValidBinding(all[i]) <==> blobs[i] != "") {}
  }

  lemma NewBindingsAreValid(d: PullDecision, source: string, m: Manifest, credential: Credential, p: Principal)
    requires credential == UserCredential ==> LocalID(p) != ""
    ensures (forall b :: b in NewBindings(d, source, m, credential, p) ==> ValidBinding(b)) <==>
            d.logicalRepository != "" && d.routeName != "" && source != "" && d.physicalRepository != ""
              && m.digest != "" && "" !in m.blobs
  {
    var first := NewBinding(d, source, m, credential, p, m.digest, ManifestObject);
    assert first in NewBindings(d, source, m, credential, p);
    if ValidBinding(first) {
      BlobBindingsAreValid(d, source, m, credential, p, m.blobs);
      var blobs := BlobBindings(d, source, m, credential, p, m.blobs);
      forall b ensures b in NewBindings(d, source, m, credential, p) <==> b == first || b in blobs {}
    }
  }

  lemma {:induction false} StagedIsKept(h: Hash, files: Files, digests: seq<string>, replies: nat -> BlobReply, i: nat)
    requires i <= |digests| && forall k :: i <= k < |digests| ==> Open(files, digests[k]).Some? && replies(k).Streamed?
    ensures BlobsCached(h, files, digests, replies, i) == (files, true)
    decreases |digests| - i
  {
    if i < |digests| {
      StagedIsKept(h, files, digests, replies, i + 1);
    }
  }

  // The first candidate answers as the registry `f`.
  ghost predicate Answers(up: Upstream, f: Fake, d: PullDecision, m: Manifest) {
    && up.manifest(0) == (match Resolved(f, d.physicalRepository, d.reference)
                          case Success(found) => Found(found)
                          case Failure(e) => if e == Unavailable then Down else NoManifest)
    && forall k :: 0 <= k < |m.blobs| ==>
         up.blob(k) == (match BlobOpened(f, m.blobs[k])
                        case Success(body) => Streamed([Chunk(body)])
                        case Failure(_) => NotOpened)
  }

  lemma PulledBack(cfg: Setup, st: State, p: Principal, d: PullDecision, f: Fake, m: Manifest, credential: Credential,
                   up: Upstream)
    requires Delivered(st.files, f, d.physicalRepository, d.reference, m) && Open(st.files, m.digest).Some?
    requires d.candidateSources != [] && Answers(up, f, d, m)
    requires TurnOf(cfg, st.logins, p, d.candidateSources[0], Found(m)) == Serves(credential, m)
    ensures var source := d.candidateSources[0];
            FromSources(cfg, st, p, d, up).1 == if Recordable(d, source, m)
                    then Success(PullResult(m, source, d.routeName, false, credential))
                                                else Failure(BadRecord)
  {
    var source := d.candidateSources[0];
    assert SearchFrom(cfg, st.logins, p, d.candidateSources, up, 0, NothingTried) ==
           Search(1, Some((credential, m)), NothingTried);
    assert ManifestCached(cfg.hash, st.files, m, up.blob) == (st.files, true) by {
      StagedIsKept(cfg.hash, st.files, m.blobs, up.blob, 0);
    }
    NewBindingsAreValid(d, source, m, credential, p);
  }

  /** A push to the first candidate followed by a pull: unless the cache answers, the pull returns the pushed
      manifest from the destination, if the metadata can record it. */
  lemma PushThenPull(cfg: Setup, st: State, push: PushRequest, f: Fake, faults: Faults, p: Principal, d: PullDecision,
                     credential: Credential, up: Upstream)
    requires Addressed(cfg.hash, st.files) && f.available && Pushed(cfg, st, push, f, faults).2.Success?
    requires cfg.engine.ResolvePull(push.repository, push.reference) == Success(d)
    requires d.candidateSources != [] && d.candidateSources[0] == Pushed(cfg, st, push, f, faults).2.value.destination
    requires Answers(up, Pushed(cfg, st, push, f, faults).1, d, push.manifest)
    requires TurnOf(cfg, st.logins, p, d.candidateSources[0], Found(push.manifest)) == Serves(credential, push.manifest)
    ensures var after := Pushed(cfg, st, push, f, faults).0;
            var source := d.candidateSources[0];
            Pull(cfg, after, PullRequest(push.repository, push.reference, p), up).1 ==
              match TryCache(cfg, after, p, d)
              case Some(answer) => answer
              case None => if Recordable(d, source, push.manifest)
                      then Success(PullResult(push.manifest, source, d.routeName, false, credential))
                           else Failure(BadRecord)
  {
    var decision := cfg.engine.ResolvePush(push.repository, push.reference);
    Delivery(cfg, st, decision.value, push.manifest, f, faults);
    var (after, published, r) := Pushed(cfg, st, push, f, faults);
    assert decision.value.physicalRepository == d.physicalRepository;
    PulledBack(cfg, after, p, d, published, push.manifest, credential, up);
  }

  lemma PublishingGrowsStore(cfg: Setup, st: State, d: PushDecision, m: Manifest, f: Fake, faults: Faults)
    requires Addressed(cfg.hash, st.files)
    ensures StoreGrew(cfg.hash, st, Published(cfg, st, d, m, f, faults).0)
  {
    ManifestIsStored(cfg.hash, st.files, m);
  }

  lemma PushOnlyAddsToStore(cfg: Setup, st: State, push: PushRequest, f: Fake, faults: Faults)
    requires Addressed(cfg.hash, st.files)
    ensures StoreGrew(cfg.hash, st, Pushed(cfg, st, push, f, faults).0)
  {
    var decision := cfg.engine.ResolvePush(push.repository, push.reference);
    if decision.Success? {
      PublishingGrowsStore(cfg, st, decision.value, push.manifest, f, faults);
    }
  }

  lemma TagAnswerStays(cfg: Setup, st: State, after: State, p: Principal, d: PullDecision)
    requires StoreGrew(cfg.hash, st, after) && TryTag(cfg, st, p, d).Some?
    ensures TryTag(cfg, after, p, d) == TryTag(cfg, st, p, d)
  {
    var mapping := st.tags[(d.logicalRepository, d.reference)];
    assert AuthorizeCachedObject(cfg, after, p, d, mapping.digest) ==
           AuthorizeCachedObject(cfg, st, p, d, mapping.digest);
  }

  /** A push writes no tag mapping, so what the cache answers for a tag it answers after any push as well:
      a fresh mapping goes on being served in place of what was pushed. */
  lemma FreshTagOutlivesPush(cfg: Setup, st: State, push: PushRequest, f: Fake, faults: Faults, request: PullRequest,
                             up: Upstream,
                             d: PullDecision)
    requires Addressed(cfg.hash, st.files)
             && cfg.engine.ResolvePull(request.repository, request.reference) == Success(d)
    requires !IsDigest(request.reference) && TryCache(cfg, st, request.principal, d).Some?
    ensures Pull(cfg, Pushed(cfg, st, push, f, faults).0, request, up).1 ==
              TryCache(cfg, st, request.principal, d).value
  {
    var after := Pushed(cfg, st, push, f, faults).0;
    PushOnlyAddsToStore(cfg, st, push, f, faults);
    assert d.reference == request.reference;
    TagAnswerStays(cfg, st, after, request.principal, d);
  }
}
