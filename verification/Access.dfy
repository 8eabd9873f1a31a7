// Who may use a source and with which credential, as internal/auth/runtime_credentials.go promises it.

module Access {
  import opened Text
  import opened Tokens
  import opened Metadata
  import opened Resolution

  predicate EnabledUser(logins: Logins, p: Principal) { LocalID(p) != "" && IsEnabled(logins, LocalID(p)) }

  predicate Available(cfg: Setup, source: string) { source in cfg.sources && cfg.sources[source].enabled }

  predicate HoldsCredential(logins: Logins, p: Principal, source: string) { (LocalID(p), source) in logins.credentials }

  // A proxy source lends its own credential to every enabled user. Another source takes an enabled user's credential;
  // a challenge source also takes, for a pull, who is no local user, and any enabled user who holds none.
  predicate Due(cfg: Setup, logins: Logins, p: Principal, source: string, op: Operation, credential: Credential) {
    && Available(cfg, source)
    && match credential
       case ProxyCredential => cfg.sources[source].strategy == ProxyStrategy && EnabledUser(logins, p)
       case UserCredential =>
         && cfg.sources[source].strategy != ProxyStrategy && EnabledUser(logins, p)
         && HoldsCredential(logins, p, source) && logins.credentials[(LocalID(p), source)]
       case AnonymousCredential =>
         && cfg.sources[source].strategy == ChallengeStrategy
         && (if LocalID(p) == "" then op == PullOperation
             else EnabledUser(logins, p) && !HoldsCredential(logins, p, source))
  }

  /** A connector is given with a credential exactly when the credential is due. */
  lemma ConnectorIff(cfg: Setup, logins: Logins, p: Principal, source: string, op: Operation, credential: Credential)
    ensures var r := ConnectorFor(cfg, logins, p, source, op);
            && (r.Success? && r.value.1 == credential <==> Due(cfg, logins, p, source, op, credential))
            && (r.Success? && r.value.1 == credential ==>
                  (r.value.0 <==> source in cfg.connectors || credential == UserCredential))
  {}

  /** Without one: an unavailable source, a disabled user, a credential that cannot be used, or one that is missing. */
  lemma RefusalSaysWhy(cfg: Setup, logins: Logins, p: Principal, source: string, op: Operation)
    requires ConnectorFor(cfg, logins, p, source, op).Failure?
    ensures var e := ConnectorFor(cfg, logins, p, source, op).error;
            && (e == SourceDisabled <==> !Available(cfg, source))
            && (e == Forbidden <==> Available(cfg, source) && LocalID(p) != "" && !IsEnabled(logins, LocalID(p)))
            && (e == CredentialUnavailable <==>
                  && Available(cfg, source) && EnabledUser(logins, p) && cfg.sources[source].strategy != ProxyStrategy
                  && HoldsCredential(logins, p, source) && !logins.credentials[(LocalID(p), source)])
  {}

  /** What a binding allows: an open one everybody; without a provider no other; a proxy's one every enabled user;
      a personal one its enabled user, who still holds a credential for the source. */
  lemma AllowedIff(cfg: Setup, logins: Logins, p: Principal, key: Key, credential: Credential)
    ensures Allows(cfg, logins, p, key) == Success(credential) <==>
            match key.access
            case Challenge => credential == AnonymousCredential
            case Proxy => credential == ProxyCredential && cfg.provider && Available(cfg, key.source)
              && EnabledUser(logins, p)
            case CurrentUserRequired =>
              && credential == UserCredential && cfg.provider && Available(cfg, key.source) && EnabledUser(logins, p)
              && LocalID(p) == key.user && HoldsCredential(logins, p, key.source)
  {}

  /** Why a binding does not allow: without a credential, or anonymously, one is required; anything else is
      forbidden. */
  lemma DenialSaysWhy(cfg: Setup, logins: Logins, p: Principal, key: Key)
    requires Allows(cfg, logins, p, key).Failure?
    ensures var e := Allows(cfg, logins, p, key).error;
            && e in {CredentialRequired, SourceError.Forbidden}
            && (e == CredentialRequired <==>
                || !cfg.provider
                || (Available(cfg, key.source)
                    && (LocalID(p) == ""
                        || (key.access == CurrentUserRequired && LocalID(p) == key.user && EnabledUser(logins, p)))))
  {}

  // Whether a pull by the principal can ask the source: some credential is due, and there is a connector.
  predicate Offered(cfg: Setup, logins: Logins, p: Principal, source: string) {
    if cfg.provider
    then exists credential: Credential :: Due(cfg, logins, p, source, PullOperation, credential)
                                          && (source in cfg.connectors || credential == UserCredential)
    else source in cfg.connectors
  }

  predicate Withheld(cfg: Setup, logins: Logins, p: Principal, source: string) {
    cfg.provider && Available(cfg, source)
      && forall credential :: !Due(cfg, logins, p, source, PullOperation, credential)
  }

  lemma OfferIff(cfg: Setup, logins: Logins, p: Principal, source: string)
    ensures var r := ConnectorFor(cfg, logins, p, source, PullOperation);
            && (Offered(cfg, logins, p, source) <==>
                if cfg.provider then r.Success? && r.value.0 else source in cfg.connectors)
            && (Withheld(cfg, logins, p, source) <==> cfg.provider && r.Failure? && r.error != SourceDisabled)
  {
    var r := ConnectorFor(cfg, logins, p, source, PullOperation);
    if r.Success? {
      ConnectorIff(cfg, logins, p, source, PullOperation, r.value.1);
      assert Due(cfg, logins, p, source, PullOperation, r.value.1);
    } else {
      RefusalSaysWhy(cfg, logins, p, source, PullOperation);
    }
    if credential :| Due(cfg, logins, p, source, PullOperation, credential) {
      ConnectorIff(cfg, logins, p, source, PullOperation, credential);
    }
    forall credential ensures Due(cfg, logins, p, source, PullOperation, credential) ==>
      r.Success? && r.value.1 == credential {
      ConnectorIff(cfg, logins, p, source, PullOperation, credential);
    }
  }

  /** What a source does for a pull: one that can be asked serves the manifest it finds, stops the pull when it rejects
      who asks, and lets it pass otherwise; one that refuses the principal stops it; any other lets it pass. */
  lemma TurnIff(cfg: Setup, logins: Logins, p: Principal, source: string, reply: Reply)
    ensures var turn := TurnOf(cfg, logins, p, source, reply);
            && (turn.Serves? <==> Offered(cfg, logins, p, source) && reply.Found?)
            && (turn.Serves? ==> reply == Found(turn.manifest))
            && (turn.Serves? && cfg.provider ==> Due(cfg, logins, p, source, PullOperation, turn.credential))
            && (turn.Serves? && !cfg.provider ==> turn.credential == AnonymousCredential)
            && (turn.Stops? <==> Withheld(cfg, logins, p, source)
                                 || (Offered(cfg, logins, p, source) && reply == Unauthenticated))
  {
    OfferIff(cfg, logins, p, source);
    var r := ConnectorFor(cfg, logins, p, source, PullOperation);
    if r.Success? {
      ConnectorIff(cfg, logins, p, source, PullOperation, r.value.1);
    }
  }

  /** Whom a failed turn blames. */
  lemma TurnBlames(cfg: Setup, logins: Logins, p: Principal, source: string, reply: Reply)
    requires !TurnOf(cfg, logins, p, source, reply).Serves?
    ensures var cause := TurnOf(cfg, logins, p, source, reply).cause;
            if Offered(cfg, logins, p, source) then
              && (cause == SourceUnauthenticated <==> reply == Unauthenticated)
                 && (cause == NoSuchManifest <==> reply == NoManifest)
              && (cause == SourceDown <==> reply == Down) && (cause == UpstreamUnauthorized <==> reply == Unauthorized)
              && (cause == UpstreamBroke <==> reply == Broke)
            else if Withheld(cfg, logins, p, source) then
              cause.NotOffered? && ConnectorFor(cfg, logins, p, source, PullOperation) == Failure(cause.error)
              && cause.error != SourceDisabled
            else cause == if cfg.provider && !Available(cfg, source) then NotOffered(SourceDisabled) else NoConnector
  {
    OfferIff(cfg, logins, p, source);
    if cfg.provider && ConnectorFor(cfg, logins, p, source, PullOperation).Failure? {
      RefusalSaysWhy(cfg, logins, p, source, PullOperation);
    }
  }
}
