// A run in which a blob that the store already holds is named by a manifest whose source does not stream it.

module CacheExamples {
  import opened Text
  import opened Ordering
  import opened Policy
  import opened Content
  import opened Registry
  import opened Metadata
  import opened Tokens
  import opened Resolution
  import opened Pushing
  import opened CacheRuns
  import opened CacheGuarantees

  // A hash by length, enough to tell the three contents of the run apart.
  function Zeros(n: nat): (r: string)
    ensures |r| == n && forall c :: c in r ==> c == '0'
  {
    if n == 0 then "" else ['0'] + Zeros(n - 1)
  }

  function NameOf(n: nat): string {
    Zeros(63) + [if n == 1 then '1' else if n == 2 then '2' else if n == 3 then '3' else '0']
  }

  function DigestOf(n: nat): string { "sha256:" + NameOf(n) }

  const HASH: Hash := (content: Bytes) => DigestOf(|content|)

  // Every manifest names the one blob.
  const DECODE: Decoder := (body: Bytes) => Some(Raw("", "", [DigestOf(3)]))

  const BLOB: Bytes := [0, 0, 0]

  function ManifestOf(content: Bytes): Manifest {
    Manifest(DEFAULT_MEDIA_TYPE, HASH(content), |content|, content, [DigestOf(3)])
  }

  function SetupOf(al: Alphabet): Setup {
    var route := Route("r", "**", 1, ["open", "private"], "", true, "", false, Rewrite("", ""));
    Setup(Engine(al, [route]),
          map["open" := SourceConfig(true, ChallengeStrategy), "private" := SourceConfig(true, CurrentUserStrategy)],
          {"open", "private"}, true, HASH, DECODE)
  }

  const LOGINS := Logins(map["p" := true], map[("p", "private") := true])
  const OWNER := LocalUser("p", "p")

  function DecisionFor(reference: string): PullDecision {
    PullDecision("r", "a", "a", reference, ["open", "private"], "", true)
  }

  lemma NamesAreDigests(n: nat)
    ensures ParseDigest(DigestOf(n)) == Success(NameOf(n)) && BlobName(NameOf(n))
    ensures 1 <= n <= 3 ==> DigestOf(n)[70] == (if n == 1 then '1' else if n == 2 then '2' else '3')
  {
    ParseDigestIff(DigestOf(n), NameOf(n));
  }

  lemma ManifestsParse(content: Bytes)
    ensures Parses(HASH, DECODE, ManifestOf(content))
  {
    var named := [""] + [DigestOf(3)];
    assert named[1..] == [DigestOf(3)] && [DigestOf(3)][1..] == [];
    assert Kept(named, NAMED) == [DigestOf(3)];
  }

  lemma Resolves(al: Alphabet, reference: string)
    ensures SetupOf(al).engine.ResolvePull("a", reference) == Success(DecisionFor(reference))
  {
    forall i | 0 <= i <= 1 ensures !("//" <= "a"[i..]) { SlashesAt("a", i); }
    NormalizedIsFixed(al, "a");
  }

  lemma PutsManifest(files: Files, content: Bytes)
    requires 1 <= |content| <= 2
    ensures var (next, put) := Put(HASH, files, DigestOf(|content|), [Chunk(content)]);
            put.Success? && (Open(files, DigestOf(3)).Some? ==> Open(next, DigestOf(3)).Some?)
  {
    NamesAreDigests(|content|);
    NamesAreDigests(3);
    OneChunk(content);
  }

  lemma PutsBlob(files: Files, source: seq<Chunk>)
    requires Open(files, DigestOf(3)).Some? || source == [Chunk(BLOB)]
    ensures Put(HASH, files, DigestOf(3), source).1.Success?
  {
    NamesAreDigests(3);
    OneChunk(BLOB);
  }

  lemma Caches(files: Files, content: Bytes, replies: nat -> BlobReply)
    requires 1 <= |content| <= 2 && replies(0).Streamed?
    requires Open(files, DigestOf(3)).Some? || replies(0) == Streamed([Chunk(BLOB)])
    ensures ManifestCached(HASH, files, ManifestOf(content), replies).1
  {
    PutsManifest(files, content);
    var next := Put(HASH, files, DigestOf(|content|), [Chunk(content)]).0;
    PutsBlob(next, replies(0).chunks);
    assert BlobsCached(HASH, next, [DigestOf(3)], replies, 0).1;
  }

  lemma Records(rows: seq<Binding>, d: PullDecision, source: string, content: Bytes, credential: Credential,
                p: Principal)
    requires d == DecisionFor(d.reference) && source != "" && (credential == UserCredential ==> LocalID(p) != "")
    ensures Recorded(rows, NewBindings(d, source, ManifestOf(content), credential, p), 1).Success?
  {
    NewBindingsAreValid(d, source, ManifestOf(content), credential, p);
  }

  // ---------------------------------------------------------------- the two pulls

  // A user's own credential gets the blob from the private source.
  const FIRST := Upstream((i: nat) => if i == 0
                          then NoManifest else Found(ManifestOf([0])), (k: nat) => Streamed([Chunk(BLOB)]))

  // The open source has a manifest that names the blob, and streams nothing of it.
  const SECOND := Upstream((i: nat) => Found(ManifestOf([0, 0])), (k: nat) => Streamed([]))

  const OWNED := PullRequest("a", "v", OWNER)
  const ANYBODY := PullRequest("a", "w", Anonymous)

  lemma FirstSearch(al: Alphabet)
    ensures SearchFrom(SetupOf(al), LOGINS, OWNER, ["open", "private"], FIRST, 0, NothingTried) ==
            Search(2, Some((UserCredential, ManifestOf([0]))), NoSuchManifest)
  {
    var cfg := SetupOf(al);
    assert TurnOf(cfg, LOGINS, OWNER, "open", NoManifest) == Moves(NoSuchManifest);
    assert TurnOf(cfg, LOGINS, OWNER, "private", Found(ManifestOf([0]))) == Serves(UserCredential, ManifestOf([0]));
  }

  lemma SecondSearch(al: Alphabet)
    ensures SearchFrom(SetupOf(al), LOGINS, Anonymous, ["open", "private"], SECOND, 0, NothingTried) ==
            Search(1, Some((AnonymousCredential, ManifestOf([0, 0]))), NothingTried)
  {
    assert TurnOf(SetupOf(al), LOGINS, Anonymous, "open", Found(ManifestOf([0, 0]))) ==
           Serves(AnonymousCredential, ManifestOf([0, 0]));
  }

  lemma FoundIsFetched(cfg: Setup, st: State, p: Principal, d: PullDecision, i: nat, credential: Credential,
                       m: Manifest,
                       cause: Cause, up: Upstream)
    requires i < |d.candidateSources| && Retainable(cfg, st, p, d, i, credential, m, up)
    ensures FetchAfter(cfg, st, p, d, up, Search(i + 1, Some((credential, m)), cause)) ==
            Some(NewFetch(st, p, d, i, credential, m, up))
  {}

  lemma FirstFetches(al: Alphabet, st: State)
    requires st == Start(1, LOGINS).st
    ensures FetchOf(SetupOf(al), st, OWNED, FIRST) ==
            Some(NewFetch(st, OWNER, DecisionFor("v"), 1, UserCredential, ManifestOf([0]), FIRST))
  {
    var d := DecisionFor("v");
    Resolves(al, "v");
    FirstSearch(al);
    Caches(st.files, [0], FIRST.blob);
    Records(st.bindings, d, "private", [0], UserCredential, OWNER);
    FoundIsFetched(SetupOf(al), st, OWNER, d, 1, UserCredential, ManifestOf([0]), NoSuchManifest, FIRST);
    assert TryCache(SetupOf(al), st, OWNER, d) == None;
  }

  lemma SecondFetches(al: Alphabet, st: State)
    requires st.now == 1 && st.logins == LOGINS && ("a", "w") !in st.tags && Open(st.files, DigestOf(3)).Some?
    ensures FetchOf(SetupOf(al), st, ANYBODY, SECOND) ==
            Some(NewFetch(st, Anonymous, DecisionFor("w"), 0, AnonymousCredential, ManifestOf([0, 0]), SECOND))
  {
    var d := DecisionFor("w");
    Resolves(al, "w");
    SecondSearch(al);
    Caches(st.files, [0, 0], SECOND.blob);
    Records(st.bindings, d, "open", [0, 0], AnonymousCredential, Anonymous);
    FoundIsFetched(SetupOf(al), st, Anonymous, d, 0, AnonymousCredential, ManifestOf([0, 0]), NothingTried, SECOND);
    assert TryCache(SetupOf(al), st, Anonymous, d) == None;
  }

  lemma BothEnabled(al: Alphabet, sys: System)
    ensures Enabled(SetupOf(al), sys, Pulls(OWNED, FIRST)) && Enabled(SetupOf(al), sys, Pulls(ANYBODY, SECOND))
  {
    ManifestsParse([0]);
    ManifestsParse([0, 0]);
  }

  lemma {:induction false} ThenAction(cfg: Setup, a: System, xs: seq<Action>, b: System, action: Action)
    requires Executes(cfg, a, xs, b) && Enabled(cfg, b, action)
    ensures Executes(cfg, a, xs + [action], Apply(cfg, b, action))
    decreases |xs|
  {
    if xs == [] {
      assert xs + [action] == [action] && [action][1..] == [];
    } else {
      ThenAction(cfg, Apply(cfg, a, xs[0]), xs[1..], b, action);
      assert (xs + [action])[0] == xs[0] && (xs + [action])[1..] == xs[1..] + [action];
    }
  }

  lemma FirstPull(al: Alphabet, sys: System)
    requires sys == Start(1, LOGINS)
    ensures var mid := Apply(SetupOf(al), sys, Pulls(OWNED, FIRST));
            && mid.log == [NewFetch(sys.st, OWNER, DecisionFor("v"), 1, UserCredential, ManifestOf([0]), FIRST)]
            && mid.st.now == 1 && mid.st.logins == LOGINS
  {
    FirstFetches(al, sys.st);
    PullLeavesLogins(SetupOf(al), sys.st, OWNED, FIRST);
  }

  // The state after the first pull: the user's fetch is logged, its blob stored, and the other tag unknown.
  lemma AfterFirst(al: Alphabet) returns (mid: System)
    ensures Executes(SetupOf(al), Start(1, LOGINS), [Pulls(OWNED, FIRST)], mid) && Coherent(SetupOf(al), mid)
    ensures |mid.log| == 1 && mid.log[0].credential == UserCredential && mid.log[0].p == OWNER
    ensures mid.st.now == 1 && mid.st.logins == LOGINS && ("a", "w") !in mid.st.tags
            && Open(mid.st.files, DigestOf(3)).Some?
  {
    var cfg, start := SetupOf(al), Start(1, LOGINS);
    BothEnabled(al, start);
    ThenAction(cfg, start, [], start, Pulls(OWNED, FIRST));
    assert [] + [Pulls(OWNED, FIRST)] == [Pulls(OWNED, FIRST)];
    mid := Apply(cfg, start, Pulls(OWNED, FIRST));
    FirstPull(al, start);
    StartIsCoherent(cfg, 1, LOGINS);
    ActionIsCoherent(cfg, start, Pulls(OWNED, FIRST));
    assert mid.log[0] in mid.log && mid.log[0].Has(DigestOf(3));
    if ("a", "w") in mid.st.tags {
      LatestIsLogged(mid.log, "a", "w");
    }
  }

  lemma SecondStreamsNothing(st: State)
    ensures !NewFetch(st, Anonymous, DecisionFor("w"), 0, AnonymousCredential, ManifestOf([0, 0]),
                      SECOND).Streams(HASH, DigestOf(3))
  {
    NamesAreDigests(3);
    NamesAreDigests(2);
    NamesAreDigests(0);
    assert ReadAll([]) == Some([]);
    assert DigestOf(0)[70] == '0';
  }

  lemma SecondIsCovered(al: Alphabet, st: State)
    requires st.logins == LOGINS
    ensures Covers(SetupOf(al), LOGINS, Anonymous, DecisionFor(DigestOf(3)), DigestOf(3),
                   NewFetch(st, Anonymous, DecisionFor("w"), 0, AnonymousCredential, ManifestOf([0, 0]), SECOND))
  {
    assert Openly(SetupOf(al),
                  NewFetch(st, Anonymous, DecisionFor("w"), 0, AnonymousCredential, ManifestOf([0, 0]), SECOND));
  }

  lemma SecondPull(al: Alphabet, mid: System) returns (sys: System, e: Fetch)
    requires mid.st.now == 1 && mid.st.logins == LOGINS && ("a", "w") !in mid.st.tags
             && Open(mid.st.files, DigestOf(3)).Some?
    ensures sys == Apply(SetupOf(al), mid, Pulls(ANYBODY, SECOND)) && sys.log == mid.log + [e]
            && sys.st.logins == LOGINS
    ensures !e.Streams(HASH, DigestOf(3))
            && Covers(SetupOf(al), LOGINS, Anonymous, DecisionFor(DigestOf(3)), DigestOf(3), e)
  {
    SecondFetches(al, mid.st);
    SecondStreamsNothing(mid.st);
    SecondIsCovered(al, mid.st);
    PullLeavesLogins(SetupOf(al), mid.st, ANYBODY, SECOND);
    sys := Apply(SetupOf(al), mid, Pulls(ANYBODY, SECOND));
    e := NewFetch(mid.st, Anonymous, DecisionFor("w"), 0, AnonymousCredential, ManifestOf([0, 0]), SECOND);
  }

  lemma BothPulls(al: Alphabet) returns (actions: seq<Action>, sys: System, first: Fetch, second: Fetch)
    ensures Reachable(SetupOf(al), 1, LOGINS, actions, sys) && sys.st.logins == LOGINS && sys.log == [first, second]
    ensures first.credential == UserCredential && first.p == OWNER
    ensures !second.Streams(HASH, DigestOf(3))
            && Covers(SetupOf(al), LOGINS, Anonymous, DecisionFor(DigestOf(3)), DigestOf(3), second)
  {
    var mid := AfterFirst(al);
    sys, second := SecondPull(al, mid);
    first := mid.log[0];
    BothEnabled(al, mid);
    ThenAction(SetupOf(al), Start(1, LOGINS), [Pulls(OWNED, FIRST)], mid, Pulls(ANYBODY, SECOND));
    actions := [Pulls(OWNED, FIRST)] + [Pulls(ANYBODY, SECOND)];
  }

  lemma OnlySecondCovers(al: Alphabet, now: int, first: Fetch, second: Fetch, d: PullDecision, digest: string)
    requires Happened(SetupOf(al), now, first) && first.credential == UserCredential && !second.Streams(HASH, digest)
    ensures forall e :: e in [first, second] && Covers(SetupOf(al), LOGINS, Anonymous, d, digest, e) ==>
              !e.Streams(HASH, digest)
  {
    CredentialIsDue(SetupOf(al), now, first);
    assert !Entitled(SetupOf(al), LOGINS, Anonymous, first);
  }

  /** A user fetches a blob with the user's own credential; then an open source, which does not stream it, names it in
      a manifest that anybody pulls. From then on it opens for anybody, with the bytes the user fetched, and no fetch
      that anybody is entitled to streamed it. */
  lemma UnstreamedBlobIsServed(al: Alphabet) returns (actions: seq<Action>, sys: System)
    ensures Reachable(SetupOf(al), 1, LOGINS, actions, sys)
    ensures SetupOf(al).engine.ResolvePull("a", DigestOf(3)) == Success(DecisionFor(DigestOf(3)))
    ensures OpenBlob(SetupOf(al), sys.st, "a", DigestOf(3), Anonymous).Success?
    ensures forall e | e in sys.log
              && Covers(SetupOf(al), sys.st.logins, Anonymous, DecisionFor(DigestOf(3)), DigestOf(3), e) ::
              !e.Streams(HASH, DigestOf(3))
  {
    var first: Fetch, second: Fetch;
    actions, sys, first, second := BothPulls(al);
    Resolves(al, DigestOf(3));
    ReachableIsCoherent(SetupOf(al), 1, LOGINS, actions, sys);
    CoveredOpens(SetupOf(al), sys, "a", DigestOf(3), Anonymous, DecisionFor(DigestOf(3)), second);
    OnlySecondCovers(al, sys.st.now, first, second, DecisionFor(DigestOf(3)), DigestOf(3));
  }
}
