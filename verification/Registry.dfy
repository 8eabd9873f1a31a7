// internal/registry: manifests, and the in-memory connector that serves as the reference registry.

module Registry {
  import opened Text
  import opened Ordering
  import opened Content

  datatype RegistryError = NotFound | Unavailable | Authentication | Authorization | BadDigest | BrokenBody | Other

  datatype Manifest = Manifest(mediaType: string, digest: string, size: int, content: Bytes, blobs: seq<string>)

  datatype Described = Described(mediaType: string, digest: string, size: int)

  // What decoding a manifest's JSON yields; decoding itself is a parameter.
  datatype Raw = Raw(mediaType: string, config: string, layers: seq<string>)

  type Decoder = Bytes -> Option<Raw>

  const DEFAULT_MEDIA_TYPE := "application/vnd.oci.image.manifest.v1+json"

  const NAMED: string -> bool := (digest: string) => digest != ""

  /** ParseManifest of internal/registry/manifest.go. */
  function ParseManifest(h: Hash, decode: Decoder, body: Bytes): Option<Manifest> {
    match decode(body)
    case None => None
    case Some(raw) =>
      Some(Manifest(if raw.mediaType == "" then DEFAULT_MEDIA_TYPE else raw.mediaType, h(body), |body|, body,
                    Kept([raw.config] + raw.layers, NAMED)))
  }

  /** A parsed manifest is the body with its hash and length; its blobs are the config and then the layers, those
      without a digest left out; and an image manifest is what has no media type of its own. */
  lemma ParsedManifest(h: Hash, decode: Decoder, body: Bytes)
    ensures ParseManifest(h, decode, body).Some? <==> decode(body).Some?
    ensures decode(body).Some? ==>
              var m, raw := ParseManifest(h, decode, body).value, decode(body).value;
              && m.content == body && m.digest == h(body) && m.size == |body|
              && (raw.mediaType != "" ==> m.mediaType == raw.mediaType)
              && (raw.mediaType == "" ==> m.mediaType == "application/vnd.oci.image.manifest.v1+json")
              && (forall d :: d in m.blobs <==> d != "" && (d == raw.config || d in raw.layers))
              && (raw.config != "" ==> m.blobs != [] && m.blobs[0] == raw.config)
              && ("" !in raw.layers ==> m.blobs == (if raw.config != "" then [raw.config] else []) + raw.layers)
  {
    if decode(body).Some? {
      var raw := decode(body).value;
      KeptSound([raw.config] + raw.layers, NAMED);
      KeptConcat([raw.config], raw.layers, NAMED);
      KeptAllOrNone(raw.layers, NAMED);
      KeptAllOrNone([raw.config], NAMED);
    }
  }

  // What a connector that answers in ParseManifest form returns.
  predicate Parses(h: Hash, decode: Decoder, m: Manifest) { ParseManifest(h, decode, m.content) == Some(m) }

  // ---------------------------------------------------------------- the reference registry

  datatype Fake = Fake(available: bool, manifests: map<string, Manifest>, blobs: map<string, Bytes>,
                       repository: map<string, set<string>>)

  function ManifestKey(repository: string, reference: string): string { repository + "@" + reference }

  function Resolved(f: Fake, repository: string, reference: string): Result<Manifest, RegistryError> {
    if !f.available then Failure(Unavailable)
    else if ManifestKey(repository, reference) in f.manifests
      then Success(f.manifests[ManifestKey(repository, reference)])
    else Failure(NotFound)
  }

  function BlobOpened(f: Fake, digest: string): Result<Bytes, RegistryError> {
    if !f.available then Failure(Unavailable) else if digest in f.blobs
      then Success(f.blobs[digest]) else Failure(NotFound)
  }

  function BlobPut(h: Hash, f: Fake, repository: string, digest: string,
                   body: seq<Chunk>): (Fake, Result<Described, RegistryError>) {
    if !f.available then (f, Failure(Unavailable))
    else
      match ReadAll(body)
      case None => (f, Failure(BrokenBody))
      case Some(content) =>
        if h(content) != digest then (f, Failure(BadDigest))
        else
          var held := if repository in f.repository then f.repository[repository] else {};
          (f.(blobs := f.blobs[digest := content], repository := f.repository[repository := held + {digest}]),
           Success(Described("", digest, |content|)))
  }

  function ManifestPut(f: Fake, repository: string, reference: string,
                       m: Manifest): (Fake, Result<Described, RegistryError>) {
    if !f.available then (f, Failure(Unavailable))
    else if exists d | d in m.blobs :: d !in f.blobs then (f, Failure(NotFound))
    else
      var tagged := f.manifests[ManifestKey(repository, reference) := m];
      (f.(manifests := if m.digest == "" then tagged else tagged[ManifestKey(repository, m.digest) := m]),
       Success(Described(m.mediaType, m.digest, m.size)))
  }

  /** A manifest is accepted exactly when every blob it names has been put, and is then found under its
      reference and under its digest; a blob that was put opens to what was sent. */
  lemma PutIsFound(h: Hash, f: Fake, repository: string, reference: string, m: Manifest, digest: string,
                   body: seq<Chunk>)
    requires f.available
    ensures var (after, r) := ManifestPut(f, repository, reference, m);
            && (r.Success? <==> forall d :: d in m.blobs ==> BlobOpened(f, d).Success?)
            && (r.Success? ==> Resolved(after, repository, reference) == Success(m) && (m.digest != "" ==>
                    Resolved(after, repository, m.digest) == Success(m)))
            && (r.Success? ==> r.value == Described(m.mediaType, m.digest, m.size))
            && (forall repo, ref ::
                  ManifestKey(repo, ref) !in {ManifestKey(repository, reference), ManifestKey(repository, m.digest)} ==>
                    Resolved(after, repo, ref) == Resolved(f, repo, ref))
            && (forall d :: BlobOpened(after, d) == BlobOpened(f, d))
            && (r.Failure? ==> after == f)
    ensures var (after, r) := BlobPut(h, f, repository, digest, body);
            && (r.Success? <==> ReadAll(body).Some? && h(ReadAll(body).value) == digest)
            && (r.Success? ==> BlobOpened(after, digest) == Success(ReadAll(body).value))
            && (r.Success? ==> r.value == Described("", digest, |ReadAll(body).value|))
            && (forall d :: d != digest || r.Failure? ==> BlobOpened(after, d) == BlobOpened(f, d))
            && (forall d :: BlobOpened(f, d).Success? ==> BlobOpened(after, d).Success?)
            && (forall repo, ref :: Resolved(after, repo, ref) == Resolved(f, repo, ref))
  {}

  /** A registry that is down answers nothing and takes nothing. */
  lemma DownIsDown(h: Hash, f: Fake, repository: string, reference: string, m: Manifest, digest: string,
                   body: seq<Chunk>)
    requires !f.available
    ensures Resolved(f, repository, reference) == Failure(Unavailable) && BlobOpened(f, digest) == Failure(Unavailable)
    ensures ManifestPut(f, repository, reference, m) == (f, Failure(Unavailable))
    ensures BlobPut(h, f, repository, digest, body) == (f, Failure(Unavailable))
  {}

  class FakeConnector {
    const hash: Hash
    var available: bool
    var manifests: map<string, Manifest>
    var blobs: map<string, Bytes>
    var repository: map<string, set<string>>

    constructor (hash: Hash)
      ensures this.hash == hash && View() == Fake(true, map[], map[], map[])
    {
      this.hash := hash;
      available, manifests, blobs, repository := true, map[], map[], map[];
    }

    function View(): Fake
      reads this
    {
      Fake(available, manifests, blobs, repository)
    }

    method ResolveManifest(name: string, reference: string) returns (r: Result<Manifest, RegistryError>)
      ensures r == Resolved(View(), name, reference)
    {
      if !available { return Failure(Unavailable); }
      var key := name + "@" + reference;
      if key !in manifests { return Failure(NotFound); }
      r := Success(manifests[key]);
    }

    method OpenBlob(digest: string) returns (r: Result<Bytes, RegistryError>)
      ensures r == BlobOpened(View(), digest)
    {
      if !available { return Failure(Unavailable); }
      if digest !in blobs { return Failure(NotFound); }
      r := Success(blobs[digest]);
    }

    method PutBlob(name: string, digest: string, body: seq<Chunk>) returns (r: Result<Described, RegistryError>)
      modifies this
      ensures (View(), r) == BlobPut(hash, old(View()), name, digest, body)
    {
      if !available { return Failure(Unavailable); }
      var content := ReadAll(body);
      if content == None { return Failure(BrokenBody); }
      if hash(content.value) != digest { return Failure(BadDigest); }
      blobs := blobs[digest := content.value];
      var held := {};
      if name in repository { held := repository[name]; }
      repository := repository[name := held + {digest}];
      r := Success(Described("", digest, |content.value|));
    }

    method PutManifest(name: string, reference: string, m: Manifest) returns (r: Result<Described, RegistryError>)
      modifies this
      ensures (View(), r) == ManifestPut(old(View()), name, reference, m)
    {
      if !available { return Failure(Unavailable); }
      for i := 0 to |m.blobs|
        invariant forall d :: d in m.blobs[..i] ==> d in blobs
        invariant View() == old(View())
      {
        if m.blobs[i] !in blobs { return Failure(NotFound); }
      }
      assert m.blobs[..|m.blobs|] == m.blobs;
      manifests := manifests[name + "@" + reference := m];
      if m.digest != "" { manifests := manifests[name + "@" + m.digest := m]; }
      r := Success(Described(m.mediaType, m.digest, m.size));
    }
  }
}
