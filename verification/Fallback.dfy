// Which sources a pull tries, in which order, and where it stops.

module Fallback {
  import opened Text
  import opened Ordering
  import opened Policy
  import opened Content
  import opened Registry
  import opened Metadata
  import opened Tokens
  import opened Resolution
  import opened Access

  /** Every source asked before the last one passed the pull on; the last one served it, or stopped it, or
      passed it on with none left. */
  lemma {:induction false} SearchPassesOn(cfg: Setup, logins: Logins, p: Principal, sources: seq<string>,
                                          up: Upstream, i: nat, cause: Cause)
    requires i <= |sources|
    ensures var r := SearchFrom(cfg, logins, p, sources, up, i, cause);
            && (forall k :: i <= k < r.asked - 1 ==> TurnOf(cfg, logins, p, sources[k], up.manifest(k)).Moves?)
            && (r.served.Some? ==>
                  TurnOf(cfg, logins, p, sources[r.asked - 1], up.manifest(r.asked - 1)) ==
                    Serves(r.served.value.0, r.served.value.1))
            && (r.served == None && i < r.asked < |sources| ==>
                  TurnOf(cfg, logins, p, sources[r.asked - 1], up.manifest(r.asked - 1)) == Stops(r.cause))
            && (r.asked == i ==> i == |sources|)
            && (r.served == None && i < r.asked ==>
                !TurnOf(cfg, logins, p, sources[r.asked - 1], up.manifest(r.asked - 1)).Serves?)
    decreases |sources| - i
  {
    if i < |sources| && TurnOf(cfg, logins, p, sources[i], up.manifest(i)).Moves? {
      SearchPassesOn(cfg, logins, p, sources, up, i + 1, TurnOf(cfg, logins, p, sources[i], up.manifest(i)).cause);
    }
  }

  // A source that ends the search: it withholds itself from the principal, or rejects who asks.
  ghost predicate Halts(cfg: Setup, logins: Logins, p: Principal, source: string, reply: Reply) {
    Withheld(cfg, logins, p, source) || (Offered(cfg, logins, p, source) && reply == Unauthenticated)
  }

  lemma StopsIffHalts(cfg: Setup, logins: Logins, p: Principal, source: string, reply: Reply)
    ensures TurnOf(cfg, logins, p, source, reply).Stops? <==> Halts(cfg, logins, p, source, reply)
  {
    TurnIff(cfg, logins, p, source, reply);
  }

  ghost predicate FromEngine(al: Alphabet, config: Policy.Config, engine: Engine) {
    Accepts(al, config) && engine == Built(al, config)
  }

  // Whether `route` is the configured route a decision came from.
  predicate DecidedBy(config: Policy.Config, d: PullDecision, route: Route) {
    && route in config.routes && route.name == d.routeName && d.candidateSources == Candidates(route)
    && d.authoritativeSource == route.authoritative && d.externalFallbackAllowed == route.externalFallback
  }

  lemma DecisionHasRoute(al: Alphabet, config: Policy.Config, engine: Engine, repository: string, reference: string,
                         d: PullDecision)
    returns (route: Route)
    requires FromEngine(al, config, engine) && engine.ResolvePull(repository, reference) == Success(d)
    ensures DecidedBy(config, d, route)
  {
    var name := NormalizeRepository(al, repository).value;
    NormalizeCutsEnds(al, repository, name);
    route := engine.MatchRoute(name).value;
    StableSortSorts(config.routes, BY_PRECEDENCE);
    SameElements(engine.routes, config.routes);
    FirstMatchOfSorted(engine.routes, name);
  }

  lemma SearchHaltsOnce(cfg: Setup, logins: Logins, p: Principal, sources: seq<string>, up: Upstream)
    ensures var r := SearchFrom(cfg, logins, p, sources, up, 0, NothingTried);
            && (forall k :: 0 <= k < r.asked - 1 ==> !Halts(cfg, logins, p, sources[k], up.manifest(k)))
            && (r.served == None && r.asked < |sources| ==>
                  r.asked > 0 && Halts(cfg, logins, p, sources[r.asked - 1], up.manifest(r.asked - 1)))
  {
    SearchPassesOn(cfg, logins, p, sources, up, 0, NothingTried);
    var r := SearchFrom(cfg, logins, p, sources, up, 0, NothingTried);
    forall k | 0 <= k < r.asked
      ensures TurnOf(cfg, logins, p, sources[k], up.manifest(k)).Stops? <==>
                Halts(cfg, logins, p, sources[k], up.manifest(k)) {
      StopsIffHalts(cfg, logins, p, sources[k], up.manifest(k));
    }
  }

  lemma CandidatesKeepOrder(al: Alphabet, config: Policy.Config, d: PullDecision, route: Route)
    requires Accepts(al, config) && DecidedBy(config, d, route)
    ensures d.candidateSources <= route.pullSources
    ensures d.authoritativeSource != "" && !d.externalFallbackAllowed ==>
              && (forall k :: 0 <= k < |d.candidateSources| - 1 ==> d.candidateSources[k] != d.authoritativeSource)
              && (config.sources != [] ==> d.authoritativeSource in d.candidateSources)
  {
    TruncationStopsAtTerminal(route.pullSources, route.authoritative);
    var i :| 0 <= i < |config.routes| && config.routes[i] == route;
    assert RouteValid(al, SourceIds(config.sources), config.routes[i]);
    if config.sources != [] {
      assert config.sources[0].id in SourceIds(config.sources);
    }
  }

  /** The sources tried are the first ones of the route, in its order. With fallback blocked none is tried
      after the first authoritative one, which is among the candidates whenever sources are configured. None
      is tried after one that halts. */
  lemma FallbackDiscipline(al: Alphabet, config: Policy.Config, cfg: Setup, logins: Logins, p: Principal,
                           repository: string,
                           reference: string, d: PullDecision, up: Upstream)
    requires FromEngine(al, config, cfg.engine) && cfg.engine.ResolvePull(repository, reference) == Success(d)
    ensures var r := SearchFrom(cfg, logins, p, d.candidateSources, up, 0, NothingTried);
            var tried := d.candidateSources[..r.asked];
            && (exists route :: DecidedBy(config, d, route) && tried <= route.pullSources)
            && (d.authoritativeSource != "" && !d.externalFallbackAllowed ==>
                  && (forall k :: 0 <= k < r.asked - 1 ==> tried[k] != d.authoritativeSource)
                  && (config.sources != [] ==> d.authoritativeSource in d.candidateSources))
            && (forall k :: 0 <= k < r.asked - 1 ==> !Halts(cfg, logins, p, tried[k], up.manifest(k)))
            && (r.served == None && r.asked < |d.candidateSources| ==>
                  r.asked > 0 && Halts(cfg, logins, p, tried[r.asked - 1], up.manifest(r.asked - 1)))
  {
    var route := DecisionHasRoute(al, config, cfg.engine, repository, reference, d);
    CandidatesKeepOrder(al, config, d, route);
    SearchHaltsOnce(cfg, logins, p, d.candidateSources, up);
    var r := SearchFrom(cfg, logins, p, d.candidateSources, up, 0, NothingTried);
    assert d.candidateSources[..r.asked] <= route.pullSources;
  }

  lemma RetainedNamesSource(cfg: Setup, st: State, p: Principal, d: PullDecision, i: nat, credential: Credential,
                            m: Manifest, up: Upstream)
    requires i < |d.candidateSources|
    ensures var r := Retained(cfg, st, p, d, i, credential, m, up).1;
            r.Success? ==> r.value == PullResult(m, d.candidateSources[i], d.routeName, i > 0, credential)
  {}

  lemma ServingReply(cfg: Setup, logins: Logins, p: Principal, source: string, reply: Reply, credential: Credential,
                     m: Manifest)
    requires TurnOf(cfg, logins, p, source, reply) == Serves(credential, m)
    ensures reply == Found(m)
  {}

  /** A pull that the sources served names the last one tried, and says fallback exactly when it is not the first. */
  lemma ServedByTheLastTried(cfg: Setup, st: State, p: Principal, d: PullDecision, up: Upstream)
    requires FromSources(cfg, st, p, d, up).1.Success?
    ensures var r := SearchFrom(cfg, st.logins, p, d.candidateSources, up, 0, NothingTried);
            var result := FromSources(cfg, st, p, d, up).1.value;
            && r.asked > 0 && result.source == d.candidateSources[r.asked - 1] && (result.fallbackUsed <==> r.asked > 1)
            && up.manifest(r.asked - 1) == Found(result.manifest)
  {
    var r := SearchFrom(cfg, st.logins, p, d.candidateSources, up, 0, NothingTried);
    SearchPassesOn(cfg, st.logins, p, d.candidateSources, up, 0, NothingTried);
    var (credential, m) := r.served.value;
    ServingReply(cfg, st.logins, p, d.candidateSources[r.asked - 1], up.manifest(r.asked - 1), credential, m);
    RetainedNamesSource(cfg, st, p, d, r.asked - 1, credential, m, up);
  }

  /** README.md says an authorization failure does not advance fallback. One from the upstream does: the next
      candidate is asked, and may serve the pull. */
  lemma UpstreamAuthorizationAdvances(cfg: Setup, logins: Logins, p: Principal, sources: seq<string>, up: Upstream)
    requires |sources| > 1 && up.manifest(0) == Unauthorized && !Halts(cfg, logins, p, sources[0], Unauthorized)
    ensures var r := SearchFrom(cfg, logins, p, sources, up, 0, NothingTried);
            && r.asked > 1
            && (forall credential, m :: TurnOf(cfg, logins, p, sources[1], up.manifest(1)) == Serves(credential, m) ==>
                  r.asked == 2 && r.served == Some((credential, m)))
  {
    StopsIffHalts(cfg, logins, p, sources[0], Unauthorized);
  }

  /** A search that finds nothing blames the last source it asked. */
  lemma {:induction false} SearchBlamesTheLast(cfg: Setup, logins: Logins, p: Principal, sources: seq<string>,
                                               up: Upstream, i: nat, cause: Cause)
    requires i <= |sources|
    ensures var r := SearchFrom(cfg, logins, p, sources, up, i, cause);
            r.served == None ==>
              if r.asked == i then r.cause == cause
              else
                var last := TurnOf(cfg, logins, p, sources[r.asked - 1], up.manifest(r.asked - 1));
                !last.Serves? && r.cause == last.cause
    decreases |sources| - i
  {
    if i < |sources| {
      var turn := TurnOf(cfg, logins, p, sources[i], up.manifest(i));
      if turn.Moves? {
        SearchBlamesTheLast(cfg, logins, p, sources, up, i + 1, turn.cause);
      }
    }
  }

  // What a pull answers when its last source was asked in vain.
  ghost predicate Blames(cfg: Setup, logins: Logins, p: Principal, source: string, reply: Reply, error: PullError) {
    && (error == NothingFound <==>
          (Offered(cfg, logins, p, source) && (reply == NoManifest || reply == Broke))
          || (cfg.provider && !Available(cfg, source)))
    && (error == Unresolved(SourceUnauthenticated) <==> Offered(cfg, logins, p, source) && reply == Unauthenticated)
    && (error == Unresolved(SourceDown) <==> Offered(cfg, logins, p, source) && reply == Down)
    && (error == Unresolved(UpstreamUnauthorized) <==> Offered(cfg, logins, p, source) && reply == Unauthorized)
    && (Withheld(cfg, logins, p, source) ==>
          exists e :: error == Unresolved(NotOffered(e))
            && ConnectorFor(cfg, logins, p, source, PullOperation) == Failure(e))
  }

  lemma LastBlamed(cfg: Setup, logins: Logins, p: Principal, source: string, reply: Reply)
    requires !TurnOf(cfg, logins, p, source, reply).Serves?
    ensures Blames(cfg, logins, p, source, reply, FinalError(TurnOf(cfg, logins, p, source, reply).cause))
  {
    OfferIff(cfg, logins, p, source);
    TurnBlames(cfg, logins, p, source, reply);
  }

  /** A pull that no source serves changes nothing and answers for the last source asked: that nothing was found if it
      lacks the manifest, broke or is disabled, or there was none to ask; otherwise what was wrong with it. */
  lemma UnservedPullBlames(cfg: Setup, st: State, p: Principal, d: PullDecision, up: Upstream)
    requires SearchFrom(cfg, st.logins, p, d.candidateSources, up, 0, NothingTried).served == None
    ensures var asked := SearchFrom(cfg, st.logins, p, d.candidateSources, up, 0, NothingTried).asked;
            var (after, r) := FromSources(cfg, st, p, d, up);
            && after == st && r.Failure?
            && (if d.candidateSources == [] then r.error == NothingFound
                else
                  && asked > 0
                  && Blames(cfg, st.logins, p, d.candidateSources[asked - 1], up.manifest(asked - 1), r.error))
  {
    var asked := SearchFrom(cfg, st.logins, p, d.candidateSources, up, 0, NothingTried).asked;
    SearchPassesOn(cfg, st.logins, p, d.candidateSources, up, 0, NothingTried);
    SearchBlamesTheLast(cfg, st.logins, p, d.candidateSources, up, 0, NothingTried);
    if asked > 0 {
      LastBlamed(cfg, st.logins, p, d.candidateSources[asked - 1], up.manifest(asked - 1));
    }
  }
}
