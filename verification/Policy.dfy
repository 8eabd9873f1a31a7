// internal/policy/policy.go: which route a repository takes, and where the route leads.

module Policy {
  import opened Text
  import opened Ordering

  datatype Source = Source(id: string)

  datatype Rewrite = Rewrite(stripPrefix: string, addPrefix: string) {
    function Apply(repository: string): string {
      var stripped := if stripPrefix != "" then TrimPrefix(repository, stripPrefix) else repository;
      if addPrefix != "" then addPrefix + stripped else stripped
    }
  }

  datatype Route = Route(name: string, pattern: string, precedence: int, pullSources: seq<string>,
                         authoritative: string, externalFallback: bool,
                         pushDestination: string, pushDenied: bool, rewrite: Rewrite)

  datatype Config = Config(sources: seq<Source>, routes: seq<Route>)

  datatype PolicyError = InvalidRepository | NoRoute | PushDenied

  datatype PullDecision = PullDecision(routeName: string, logicalRepository: string, physicalRepository: string,
                                       reference: string, candidateSources: seq<string>,
                                       authoritativeSource: string, externalFallbackAllowed: bool)

  datatype PushDecision = PushDecision(routeName: string, logicalRepository: string, physicalRepository: string,
                                       reference: string, destination: string)

  // ---------------------------------------------------------------- repository names

  // unicode.IsLower and unicode.IsDigit are tables of the Unicode standard; all that matters here
  // is which characters they leave out.
  datatype Classes = Classes(lower: char -> bool, digit: char -> bool)

  ghost predicate Sane(c: Classes) {
    && c.lower('a')
    && forall ch :: c.lower(ch) || c.digit(ch) ==> !IsSpace(ch) && ch !in ['/', ':', '*', '"', '\\', ',', '\0']
  }

  type Alphabet = c: Classes | Sane(c)
    ghost witness Classes(ch => ch == 'a', ch => false)

  function AllowedChar(al: Alphabet, c: char): bool {
    al.lower(c) || al.digit(c) || c in ['/', '.', '_', '-']
  }

  const SLASH: char -> bool := c => c == '/'

  function NormalizeRepository(al: Alphabet, repository: string): Result<string, PolicyError> {
    var trimmed := TrimOf(TrimSpace(repository), SLASH);
    if trimmed == "" || Contains(trimmed, "//") then Failure(InvalidRepository)
    else if forall c | c in trimmed :: AllowedChar(al, c) then Success(trimmed)
    else Failure(InvalidRepository)
  }

  predicate Normalized(al: Alphabet, repository: string) {
    && repository != ""
    && repository[0] != '/' && repository[|repository| - 1] != '/'
    && !Contains(repository, "//")
    && forall c | c in repository :: AllowedChar(al, c)
  }

  /** Normalization only cuts spaces and slashes off the ends, and what it accepts it accepts for good. */
  lemma NormalizeCutsEnds(al: Alphabet, repository: string, n: string)
    requires NormalizeRepository(al, repository) == Success(n)
    ensures Normalized(al, n) && NormalizeRepository(al, n) == Success(n)
    ensures exists lead, tail :: repository == lead + n + tail && forall c :: c in lead || c in tail ==>
              IsSpace(c) || c == '/'
  {
    var lead, tail := TrimCutsEnds(repository, IsSpace);
    var lead', tail' := TrimCutsEnds(TrimSpace(repository), SLASH);
    assert repository == (lead + lead') + n + (tail' + tail);
    NormalizedIsFixed(al, n);
  }

  lemma NormalizedIsFixed(al: Alphabet, n: string)
    requires Normalized(al, n)
    ensures NormalizeRepository(al, n) == Success(n)
  {
    assert n[0] in n && n[|n| - 1] in n;
    TrimBare(n, IsSpace);
    TrimBare(n, SLASH);
  }

  /** A text without spaces or slashes at its ends is a name exactly if it is not empty, has no two slashes together and
      holds nothing but lower-case letters, digits, slashes, dots, underscores and hyphens. */
  lemma NameIff(al: Alphabet, text: string)
    requires Bare(text, IsSpace) && Bare(text, SLASH)
    ensures NormalizeRepository(al, text) == Success(text) <==>
            && text != "" && (forall i :: 0 <= i < |text| - 1 ==> text[i] != '/' || text[i + 1] != '/')
            && forall c :: c in text ==> al.lower(c) || al.digit(c) || c in "/._-"
    ensures NormalizeRepository(al, text) in {Success(text), Failure(InvalidRepository)}
  {
    TrimBare(text, IsSpace);
    TrimBare(text, SLASH);
    TwoSlashes(text);
  }

  lemma TwoSlashes(text: string)
    ensures !Contains(text, "//") <==> forall i :: 0 <= i < |text| - 1 ==> text[i] != '/' || text[i + 1] != '/'
  {
    if Contains(text, "//") {
      var i :| 0 <= i <= |text| && "//" <= text[i..];
      SlashesAt(text, i);
    }
    forall i | 0 <= i < |text| - 1 && text[i] == '/' && text[i + 1] == '/' ensures Contains(text, "//") {
      SlashesAt(text, i);
    }
  }

  // ---------------------------------------------------------------- patterns

  predicate IsTree(pattern: string) { HasSuffix(pattern, "/**") }

  function MatchRepository(pattern: string, repository: string): bool {
    if pattern == "**" then true
    else if IsTree(pattern) then HasPrefix(repository, TrimSuffix(pattern, "**"))
    else pattern == repository
  }

  function PatternContains(parent: string, child: string): bool {
    HasPrefix(if IsTree(child) then TrimSuffix(child, "**") else child, TrimSuffix(parent, "**"))
  }

  function PatternsOverlap(a: string, b: string): bool {
    if a == "**" || b == "**" then true
    else if a == b then true
    else if IsTree(a) then PatternContains(a, b)
    else if IsTree(b) then PatternContains(b, a)
    else false
  }

  // The patterns a configuration is meant to hold: "**", a repository, or a repository and "/**".
  predicate Canonical(al: Alphabet, pattern: string) {
    pattern == "**" || Normalized(al, TrimSuffix(pattern, "/**"))
  }

  ghost predicate Common(al: Alphabet, a: string, b: string) {
    exists r :: Normalized(al, r) && MatchRepository(a, r) && MatchRepository(b, r)
  }

  // The pattern's directory, with its final slash.
  function Stem(pattern: string): string { TrimSuffix(pattern, "**") }

  lemma TreeStem(al: Alphabet, pattern: string)
    requires Canonical(al, pattern) && pattern != "**"
    ensures IsTree(pattern) ==> Stem(pattern) == TrimSuffix(pattern, "/**") + "/"
    ensures !IsTree(pattern) ==> Normalized(al, pattern)
  {
    if IsTree(pattern) {
      var base := TrimSuffix(pattern, "/**");
      assert pattern == base + "/**";
      assert pattern == (base + "/") + "**";
      assert pattern[|pattern| - 2..] == "**";
    }
  }

  lemma SlashesAt(s: string, i: nat)
    requires i <= |s|
    ensures "//" <= s[i..] <==> i + 1 < |s| && s[i] == '/' && s[i + 1] == '/'
  {
    assert i + 1 < |s| ==> s[i..][..2] == [s[i], s[i + 1]];
  }

  // A repository a pattern matches, below or equal to its stem.
  function Witness(pattern: string): string {
    if pattern == "**" then "a" else if IsTree(pattern) then Stem(pattern) + "a" else pattern
  }

  lemma WitnessMatches(al: Alphabet, pattern: string)
    requires Canonical(al, pattern)
    ensures Normalized(al, Witness(pattern)) && MatchRepository(pattern, Witness(pattern))
    ensures IsTree(pattern) ==> HasPrefix(Witness(pattern), Stem(pattern))
  {
    if pattern == "**" {
      assert !Contains("a", "//");
    } else {
      TreeStem(al, pattern);
      if IsTree(pattern) {
        var base, w := TrimSuffix(pattern, "/**"), Witness(pattern);
        assert w == base + "/a";
        forall i | 0 <= i <= |w| && "//" <= w[i..] ensures false {
          SlashesAt(w, i);
          if i <= |base| {
            SlashesAt(base, i);
          }
        }
      }
    }
  }

  lemma PrefixesNest(a: string, b: string, r: string)
    requires a <= r && b <= r
    ensures a <= b || b <= a
  {
    if |a| <= |b| {
      assert a == r[..|a|] && b == r[..|b|] && r[..|b|][..|a|] == r[..|a|];
    } else {
      assert a == r[..|a|] && b == r[..|b|] && r[..|a|][..|b|] == r[..|b|];
    }
  }

  lemma OverlapGivesWitness(al: Alphabet, a: string, b: string)
    requires Canonical(al, a) && Canonical(al, b) && PatternsOverlap(a, b)
    ensures Common(al, a, b)
  {
    WitnessMatches(al, a);
    WitnessMatches(al, b);
    if a != "**" { TreeStem(al, a); }
    if b != "**" { TreeStem(al, b); }
  }

  lemma CommonGivesOverlap(a: string, b: string, r: string)
    requires MatchRepository(a, r) && MatchRepository(b, r)
    ensures PatternsOverlap(a, b) || PatternsOverlap(b, a)
  {
    if a != "**" && b != "**" && IsTree(a) && IsTree(b) {
      PrefixesNest(Stem(a), Stem(b), r);
    }
  }

  /** Asked in both orders, the test is exact: it holds just when some repository takes both patterns. */
  lemma OverlapIsExact(al: Alphabet, a: string, b: string)
    requires Canonical(al, a) && Canonical(al, b)
    ensures PatternsOverlap(a, b) || PatternsOverlap(b, a) <==> Common(al, a, b)
  {
    if PatternsOverlap(a, b) {
      OverlapGivesWitness(al, a, b);
    }
    if PatternsOverlap(b, a) {
      OverlapGivesWitness(al, b, a);
    }
    if Common(al, a, b) {
      var r :| Normalized(al, r) && MatchRepository(a, r) && MatchRepository(b, r);
      CommonGivesOverlap(a, b, r);
    }
  }

  /** The pair that one order misses: a tree listed before a tree around it. */
  predicate StrictlyInside(a: string, b: string) {
    IsTree(a) && IsTree(b) && Stem(b) < Stem(a)
  }

  lemma OneOrderMisses(al: Alphabet, a: string, b: string)
    requires Canonical(al, a) && Canonical(al, b)
    ensures Common(al, a, b) && !PatternsOverlap(a, b) <==> StrictlyInside(a, b)
  {
    OverlapIsExact(al, a, b);
    if a != "**" { TreeStem(al, a); }
    if b != "**" { TreeStem(al, b); }
    if StrictlyInside(a, b) {
      assert PatternContains(b, a);
    }
  }

  // ---------------------------------------------------------------- configuration

  datatype ConfigError = BadSources | BadName | BadPattern | BadRouteSources | AmbiguousRoutes

  predicate SourcesValid(sources: seq<Source>) {
    && (forall i | 0 <= i < |sources| :: sources[i].id != "")
    && (forall i, j | 0 <= i < j < |sources| :: sources[i].id != sources[j].id)
  }

  function SourceIds(sources: seq<Source>): set<string> { set s | s in sources :: s.id }

  predicate PatternValid(al: Alphabet, pattern: string) {
    pattern != "" && (pattern == "**" || NormalizeRepository(al, TrimSuffix(pattern, "/**")).Success?)
  }

  predicate RouteSourcesValid(ids: set<string>, route: Route) {
    ids == {} ||
    (&& (forall id | id in route.pullSources :: id in ids)
     && (route.authoritative != "" ==> route.authoritative in ids && route.authoritative in route.pullSources)
     && (route.pushDestination != "" ==> route.pushDestination in ids))
  }

  predicate Clash(a: Route, b: Route) {
    a.precedence == b.precedence && PatternsOverlap(a.pattern, b.pattern)
  }

  predicate RouteValid(al: Alphabet, ids: set<string>, route: Route) {
    route.name != "" && PatternValid(al, route.pattern) && RouteSourcesValid(ids, route)
  }

  predicate NamesDistinct(routes: seq<Route>) {
    forall i, j | 0 <= i < j < |routes| :: routes[i].name != routes[j].name
  }

  predicate NoClash(routes: seq<Route>) {
    forall i, j | 0 <= i < j < |routes| :: !Clash(routes[i], routes[j])
  }

  /** What NewEngine accepts. */
  predicate Accepts(al: Alphabet, config: Config) {
    && SourcesValid(config.sources)
    && (forall i | 0 <= i < |config.routes| :: RouteValid(al, SourceIds(config.sources), config.routes[i]))
    && NamesDistinct(config.routes) && NoClash(config.routes)
  }

  // A pattern is valid exactly if it is "**", what normalizes to a name, or a tree of such.
  lemma PatternIff(al: Alphabet, pattern: string)
    ensures PatternValid(al, pattern) <==>
            || pattern == "**"
            || NormalizeRepository(al, pattern).Success?
            || exists base :: pattern == base + "/**" && NormalizeRepository(al, base).Success?
  {
    forall base: string ensures IsTree(base + "/**") {
      assert (base + "/**")[|base|..] == "/**";
    }
    if IsTree(pattern) {
      var base := TrimSuffix(pattern, "/**");
      assert pattern == base + "/**";
      StarsAreNoName(al, base + "/*");
      assert base + "/*" + "*" == pattern;
      forall other | pattern == other + "/**" ensures other == base {
        assert pattern[..|pattern| - 3] == other;
      }
    } else {
      assert NormalizeRepository(al, "").Failure?;
    }
  }

  lemma TrimKeepsLast(s: string, cut: char -> bool)
    requires s != "" && !cut(s[|s| - 1])
    ensures TrimOf(s, cut) != "" && TrimOf(s, cut)[|TrimOf(s, cut)| - 1] == s[|s| - 1]
  {
    var t := TrimLeftOf(s, cut);
    TrimLeftIsSuffix(s, cut);
    assert !(|s| - 1 < |s| - |t|);
    assert t[|t| - 1] == s[|s| - 1];
  }

  lemma StarsAreNoName(al: Alphabet, text: string)
    ensures NormalizeRepository(al, text + "*").Failure?
  {
    var all := text + "*";
    TrimKeepsLast(all, IsSpace);
    TrimKeepsLast(TrimSpace(all), SLASH);
    var trimmed := TrimOf(TrimSpace(all), SLASH);
    assert trimmed[|trimmed| - 1] in trimmed && !AllowedChar(al, '*');
  }

  // Whether a source of that id is configured.
  predicate Configured(sources: seq<Source>, id: string) { exists s | s in sources :: s.id == id }

  /** Once sources are configured, a route may only name those: to pull from, as authoritative, which must be one it
      pulls from, and to push to. */
  lemma RouteSourcesIff(sources: seq<Source>, route: Route)
    ensures RouteSourcesValid(SourceIds(sources), route) <==>
            sources != [] ==>
              && (forall id :: id in route.pullSources ==> Configured(sources, id))
              && (route.authoritative != "" ==> route.authoritative in route.pullSources)
              && (route.pushDestination != "" ==> Configured(sources, route.pushDestination))
  {
    if sources != [] {
      assert sources[0].id in SourceIds(sources);
    }
    forall id ensures id in SourceIds(sources) <==> Configured(sources, id) {}
  }

  const BY_PRECEDENCE: (Route, Route) -> bool := (a: Route, b: Route) => a.precedence <= b.precedence

  function FirstMatch(routes: seq<Route>, repository: string): Result<Route, PolicyError> {
    if routes == [] then Failure(NoRoute)
    else if MatchRepository(routes[0].pattern, repository) then Success(routes[0])
    else FirstMatch(routes[1..], repository)
  }

  function TruncateAfter(values: seq<string>, terminal: string): seq<string> {
    if values == [] then []
    else if values[0] == terminal then [values[0]]
    else [values[0]] + TruncateAfter(values[1..], terminal)
  }

  datatype Engine = Engine(alphabet: Alphabet, routes: seq<Route>) {
    function MatchRoute(repository: string): Result<Route, PolicyError> {
      match NormalizeRepository(alphabet, repository)
      case Failure(e) => Failure(e)
      case Success(name) => FirstMatch(routes, name)
    }

    function ResolvePull(repository: string, reference: string): Result<PullDecision, PolicyError> {
      match NormalizeRepository(alphabet, repository)
      case Failure(e) => Failure(e)
      case Success(logical) =>
        match MatchRoute(logical)
        case Failure(e) => Failure(e)
        case Success(route) =>
          Success(PullDecision(route.name, logical, route.rewrite.Apply(logical), reference, Candidates(route),
                               route.authoritative, route.externalFallback))
    }

    function ResolvePush(repository: string, reference: string): Result<PushDecision, PolicyError> {
      match NormalizeRepository(alphabet, repository)
      case Failure(e) => Failure(e)
      case Success(logical) =>
        match MatchRoute(logical)
        case Failure(e) => Failure(e)
        case Success(route) =>
          if route.pushDenied || route.pushDestination == "" then Failure(PushDenied)
          else Success(PushDecision(route.name, logical, route.rewrite.Apply(logical), reference,
                                    route.pushDestination))
    }
  }

  function Candidates(route: Route): seq<string> {
    if route.authoritative != "" && !route.externalFallback
    then TruncateAfter(route.pullSources, route.authoritative)
    else route.pullSources
  }

  /** The candidates are the route's sources in order, cut right after the first authoritative one
      when fallback is off. */
  lemma {:induction false} TruncationStopsAtTerminal(values: seq<string>, terminal: string)
    ensures var t := TruncateAfter(values, terminal);
            && t <= values
            && (terminal in values <==> t != [] && t[|t| - 1] == terminal)
            && (forall i :: 0 <= i < |t| - 1 ==> t[i] != terminal)
            && (terminal !in values ==> t == values)
  {
    if values != [] && values[0] != terminal {
      TruncationStopsAtTerminal(values[1..], terminal);
      var rest := TruncateAfter(values[1..], terminal);
      assert values == [values[0]] + values[1..];
      assert rest <= values[1..] && [values[0]] + rest <= values;
    }
  }

  /** A rewrite takes its prefix off a name that has it, leaves any other name, and puts its own prefix in front. */
  lemma RewriteReplacesPrefix(rewrite: Rewrite, repository: string, rest: string)
    ensures rewrite.Apply(rewrite.stripPrefix + rest) == rewrite.addPrefix + rest
    ensures !(rewrite.stripPrefix <= repository) ==> rewrite.Apply(repository) == rewrite.addPrefix + repository
  {
    assert (rewrite.stripPrefix + rest)[|rewrite.stripPrefix|..] == rest;
    assert "" + rest == rest && "" + repository == repository;
  }

  /** A tree takes what lies below its base, "**" everything, any other pattern itself. */
  lemma TreesTakeWhatIsBelow(base: string, name: string)
    ensures MatchRepository("**", name)
    ensures base != "" ==> (MatchRepository(base + "/**", name) <==> base + "/" <= name)
    ensures base != "**" && !IsTree(base) ==> (MatchRepository(base, name) <==> base == name)
  {
    var tree := base + "/**";
    assert tree[|tree| - 3..] == "/**" && tree == (base + "/") + "**";
    assert tree[|tree| - 2..] == "**" && tree[..|tree| - 2] == base + "/";
  }

  /** With fallback blocked the candidates end at the first authoritative source; else they are all the sources. */
  lemma CandidatesEndAtAuthoritative(route: Route)
    ensures (route.authoritative == "" || route.externalFallback || route.authoritative !in route.pullSources) ==>
              Candidates(route) == route.pullSources
    ensures forall k :: 0 <= k < |route.pullSources| && route.authoritative != "" && !route.externalFallback
                        && route.pullSources[k] == route.authoritative
                           && route.authoritative !in route.pullSources[..k] ==>
              Candidates(route) == route.pullSources[..k + 1]
  {
    TruncationStopsAtTerminal(route.pullSources, route.authoritative);
    var t := TruncateAfter(route.pullSources, route.authoritative);
    forall k | 0 <= k < |route.pullSources| && route.pullSources[k] == route.authoritative
               && route.authoritative !in route.pullSources[..k]
      ensures t == route.pullSources[..k + 1] {
      assert route.pullSources[k] in route.pullSources;
      assert forall i :: 0 <= i < k ==> route.pullSources[i] in route.pullSources[..k];
    }
  }

  method ValidateSources(sources: seq<Source>) returns (ids: Option<set<string>>)
    ensures ids.Some? <==> SourcesValid(sources)
    ensures ids.Some? ==> ids.value == SourceIds(sources)
  {
    var seen := {};
    for i := 0 to |sources|
      invariant SourcesValid(sources[..i])
      invariant seen == SourceIds(sources[..i])
    {
      assert sources[..i + 1] == sources[..i] + [sources[i]];
      if sources[i].id == "" {
        return None;
      }
      if sources[i].id in seen {
        var s :| s in sources[..i] && s.id == sources[i].id;
        var j :| 0 <= j < i && sources[j] == s;
        return None;
      }
      seen := seen + {sources[i].id};
    }
    assert sources[..|sources|] == sources;
    return Some(seen);
  }

  // The inner loop: the routes after `i` that could take a repository of route `i` at its precedence.
  method ClashesLater(routes: seq<Route>, i: nat) returns (found: bool)
    requires i < |routes|
    ensures found <==> exists j :: i < j < |routes| && Clash(routes[i], routes[j])
  {
    for j := i + 1 to |routes|
      invariant forall k :: i < k < j ==> !Clash(routes[i], routes[k])
    {
      if routes[i].precedence == routes[j].precedence && PatternsOverlap(routes[i].pattern, routes[j].pattern) {
        assert Clash(routes[i], routes[j]);
        return true;
      }
    }
    found := false;
  }

  method CheckRoute(al: Alphabet, ids: set<string>, route: Route) returns (error: Option<ConfigError>)
    requires route.name != ""
    ensures error == None <==> RouteValid(al, ids, route)
  {
    if !PatternValid(al, route.pattern) {
      return Some(BadPattern);
    }
    if !RouteSourcesValid(ids, route) {
      return Some(BadRouteSources);
    }
    error := None;
  }

  predicate Clear(routes: seq<Route>, i: nat)
    requires i < |routes|
  {
    forall j | i < j < |routes| :: !Clash(routes[i], routes[j])
  }

  // The routes before `i` are accepted, and `names` are theirs.
  ghost predicate AcceptedUpTo(al: Alphabet, known: set<string>, routes: seq<Route>, i: nat, names: set<string>)
    requires i <= |routes|
  {
    && (forall k :: 0 <= k < i ==> RouteValid(al, known, routes[k]) && Clear(routes, k))
    && (forall k, j :: 0 <= k < j < i ==> routes[k].name != routes[j].name)
    && names == set k | 0 <= k < i :: routes[k].name
  }

  lemma OneMoreIsAccepted(al: Alphabet, known: set<string>, routes: seq<Route>, i: nat, names: set<string>)
    requires i < |routes| && AcceptedUpTo(al, known, routes, i, names) && routes[i].name !in names
    requires RouteValid(al, known, routes[i]) && Clear(routes, i)
    ensures AcceptedUpTo(al, known, routes, i + 1, names + {routes[i].name})
  {}

  lemma AllAreAccepted(al: Alphabet, config: Config, names: set<string>)
    requires SourcesValid(config.sources)
    requires AcceptedUpTo(al, SourceIds(config.sources), config.routes, |config.routes|, names)
    ensures Accepts(al, config)
  {
    var routes := config.routes;
    forall i, j | 0 <= i < j < |routes| ensures !Clash(routes[i], routes[j]) {
      assert Clear(routes, i);
    }
  }

  method ValidateRoutes(al: Alphabet, config: Config) returns (error: Option<ConfigError>)
    ensures error == None <==> Accepts(al, config)
  {
    var routes := config.routes;
    var ids := ValidateSources(config.sources);
    if ids == None {
      return Some(BadSources);
    }
    var known := ids.value;
    var names: set<string> := {};
    for i := 0 to |routes|
      invariant AcceptedUpTo(al, known, routes, i, names)
    {
      var route := routes[i];
      if route.name == "" {
        assert !RouteValid(al, known, routes[i]);
        return Some(BadName);
      }
      if route.name in names {
        assert !NamesDistinct(routes);
        return Some(BadName);
      }
      error := CheckRoute(al, known, route);
      if error.Some? {
        assert !RouteValid(al, known, routes[i]);
        return;
      }
      var ambiguous := ClashesLater(routes, i);
      if ambiguous {
        assert !NoClash(routes);
        return Some(AmbiguousRoutes);
      }
      OneMoreIsAccepted(al, known, routes, i, names);
      names := names + {route.name};
    }
    AllAreAccepted(al, config, names);
    return None;
  }

  method NewEngine(al: Alphabet, config: Config) returns (engine: Result<Engine, ConfigError>)
    ensures engine.Success? <==> Accepts(al, config)
    ensures engine.Success? ==> engine.value == Built(al, config)
  {
    var error := ValidateRoutes(al, config);
    match error {
      case Some(e) => engine := Failure(e);
      case None => engine := Success(Engine(al, StableSort(config.routes, BY_PRECEDENCE)));
    }
  }

  function Built(al: Alphabet, config: Config): Engine {
    Engine(al, StableSort(config.routes, BY_PRECEDENCE))
  }

  // ---------------------------------------------------------------- routing does not depend on order

  predicate AllCanonical(al: Alphabet, routes: seq<Route>) {
    forall r | r in routes :: Canonical(al, r.pattern)
  }

  /** The check asked in both orders for every pair. */
  predicate NoClashEitherWay(routes: seq<Route>) {
    forall i, j | 0 <= i < |routes| && 0 <= j < |routes| && i != j :: !Clash(routes[i], routes[j])
  }

  /** `route` is the one route of least precedence among those that match. */
  ghost predicate Selected(routes: seq<Route>, name: string, route: Route) {
    && route in routes && MatchRepository(route.pattern, name)
    && forall r | r in routes && MatchRepository(r.pattern, name) :: r == route || route.precedence < r.precedence
  }

  lemma FirstMatchOfSorted(routes: seq<Route>, name: string)
    requires Sorted(routes, BY_PRECEDENCE)
    ensures FirstMatch(routes, name).Failure? <==> forall r | r in routes :: !MatchRepository(r.pattern, name)
    ensures FirstMatch(routes, name).Failure? ==> FirstMatch(routes, name).error == NoRoute
    ensures FirstMatch(routes, name).Success? ==>
              var route := FirstMatch(routes, name).value;
              && route in routes && MatchRepository(route.pattern, name)
              && forall r | r in routes && MatchRepository(r.pattern, name) :: route.precedence <= r.precedence
  {
    if routes != [] {
      assert routes == [routes[0]] + routes[1..];
      if MatchRepository(routes[0].pattern, name) {
        forall r | r in routes ensures routes[0].precedence <= r.precedence {
          var k :| 0 <= k < |routes| && routes[k] == r;
          assert k > 0 ==> BY_PRECEDENCE(routes[0], routes[k]);
        }
      } else {
        FirstMatchOfSorted(routes[1..], name);
      }
    }
  }

  // Of the configured routes that match a name, the first of those with the least precedence.
  predicate Takes(routes: seq<Route>, name: string, route: Route) {
    exists i | 0 <= i < |routes| :: routes[i] == route && TakesAt(routes, name, i)
  }

  predicate TakesAt(routes: seq<Route>, name: string, i: nat)
    requires i < |routes|
  {
    && MatchRepository(routes[i].pattern, name)
    && forall j | 0 <= j < |routes| && MatchRepository(routes[j].pattern, name) ::
         routes[i].precedence < routes[j].precedence || (routes[i].precedence == routes[j].precedence && i <= j)
  }

  function Matching(name: string): Route -> bool { (route: Route) => MatchRepository(route.pattern, name) }

  lemma {:induction false} FirstMatchIsKept(routes: seq<Route>, name: string)
    ensures FirstMatch(routes, name) == if Kept(routes, Matching(name)) == [] then Failure(NoRoute)
                                        else Success(Kept(routes, Matching(name))[0])
  {
    if routes != [] && !MatchRepository(routes[0].pattern, name) {
      FirstMatchIsKept(routes[1..], name);
    }
  }

  lemma NoneTakes(routes: seq<Route>, name: string)
    requires Kept(routes, Matching(name)) == []
    ensures forall route :: !Takes(routes, name, route)
  {
    KeptSound(routes, Matching(name));
    forall i | 0 <= i < |routes| ensures !MatchRepository(routes[i].pattern, name) {
      assert routes[i] in routes && !Matching(name)(routes[i]);
    }
  }

  lemma FirstTakes(routes: seq<Route>, name: string) returns (i: nat)
    requires Kept(routes, Matching(name)) != []
    ensures i < |routes| && Takes(routes, name, routes[i])
    ensures var sorted := StableSort(Kept(routes, Matching(name)), BY_PRECEDENCE);
            sorted != [] && sorted[0] == routes[i]
  {
    i := FirstOfSort(routes, BY_PRECEDENCE, Matching(name));
    forall j | 0 <= j < |routes| && MatchRepository(routes[j].pattern, name)
      ensures routes[i].precedence < routes[j].precedence || (routes[i].precedence == routes[j].precedence && i <= j) {
      assert Matching(name)(routes[j]) && BY_PRECEDENCE(routes[i], routes[j]);
      assert j < i ==> !BY_PRECEDENCE(routes[j], routes[i]);
    }
    assert TakesAt(routes, name, i);
  }

  /** The engine matches a name to the route that takes it, whatever the configuration. */
  lemma EngineTakes(al: Alphabet, config: Config, name: string)
    ensures var found := FirstMatch(Built(al, config).routes, name);
            && (found.Success? ==> Takes(config.routes, name, found.value))
            && (found.Failure? ==> found.error == NoRoute && forall route :: !Takes(config.routes, name, route))
  {
    FirstMatchIsKept(Built(al, config).routes, name);
    KeptCommutesWithSort(config.routes, BY_PRECEDENCE, Matching(name));
    if Kept(config.routes, Matching(name)) == [] {
      NoneTakes(config.routes, name);
    } else {
      var i := FirstTakes(config.routes, name);
    }
  }

  lemma OneRouteTakes(routes: seq<Route>, name: string, a: Route, b: Route)
    requires Takes(routes, name, a) && Takes(routes, name, b)
    ensures a == b
  {
    var i :| 0 <= i < |routes| && routes[i] == a && TakesAt(routes, name, i);
    var j :| 0 <= j < |routes| && routes[j] == b && TakesAt(routes, name, j);
  }

  /** A pull is decided exactly when a configured route takes the normalized name, and then by that route. */
  lemma PullDecisionIff(al: Alphabet, config: Config, repository: string, reference: string, d: PullDecision)
    ensures Built(al, config).ResolvePull(repository, reference) == Success(d) <==>
            && NormalizeRepository(al, repository) == Success(d.logicalRepository) && d.reference == reference
            && exists route :: Takes(config.routes, d.logicalRepository, route) && Pulls(route, d)
  {
    var name := NormalizeRepository(al, repository);
    if name.Success? {
      NormalizeCutsEnds(al, repository, name.value);
      EngineTakes(al, config, name.value);
      var found := FirstMatch(Built(al, config).routes, name.value);
      if found.Success? && d.logicalRepository == name.value {
        forall route | Takes(config.routes, name.value, route) ensures route == found.value {
          OneRouteTakes(config.routes, name.value, route, found.value);
        }
      }
    }
  }

  // What a route makes of a pull.
  predicate Pulls(route: Route, d: PullDecision) {
    && d.routeName == route.name && d.physicalRepository == route.rewrite.Apply(d.logicalRepository)
    && d.candidateSources == Candidates(route)
    && d.authoritativeSource == route.authoritative && d.externalFallbackAllowed == route.externalFallback
  }

  /** A push is let through exactly when a configured route takes the normalized name, does not deny pushes and has a
      destination, which is where it goes. */
  lemma PushDecisionIff(al: Alphabet, config: Config, repository: string, reference: string, d: PushDecision)
    ensures Built(al, config).ResolvePush(repository, reference) == Success(d) <==>
            && NormalizeRepository(al, repository) == Success(d.logicalRepository) && d.reference == reference
            && exists route :: Takes(config.routes, d.logicalRepository, route) && Pushes(route, d)
  {
    var name := NormalizeRepository(al, repository);
    if name.Success? {
      NormalizeCutsEnds(al, repository, name.value);
      EngineTakes(al, config, name.value);
      var found := FirstMatch(Built(al, config).routes, name.value);
      if found.Success? && d.logicalRepository == name.value {
        forall route | Takes(config.routes, name.value, route) ensures route == found.value {
          OneRouteTakes(config.routes, name.value, route, found.value);
        }
      }
    }
  }

  /** Why a repository is not decided: its name is none, no configured route takes it, or that route lets no push
      through. */
  lemma RefusalSaysWhy(al: Alphabet, config: Config, repository: string, reference: string)
    ensures var name, pull, push :=
              NormalizeRepository(al, repository), Built(al, config).ResolvePull(repository, reference),
                                    Built(al, config).ResolvePush(repository, reference);
            if name.Failure? then pull == Failure(InvalidRepository) && push == Failure(InvalidRepository)
            else if forall route :: !Takes(config.routes, name.value, route)
            then pull == Failure(NoRoute) && push == Failure(NoRoute)
            else pull.Success? && (push.Success? || push == Failure(PushDenied))
  {
    var name := NormalizeRepository(al, repository);
    if name.Success? {
      NormalizeCutsEnds(al, repository, name.value);
      EngineTakes(al, config, name.value);
    }
  }

  // What a route makes of a push it lets through.
  predicate Pushes(route: Route, d: PushDecision) {
    && !route.pushDenied && route.pushDestination != ""
    && d.routeName == route.name && d.physicalRepository == route.rewrite.Apply(d.logicalRepository)
    && d.destination == route.pushDestination
  }

  lemma RouteIsSelected(al: Alphabet, config: Config, name: string)
    requires NoClashEitherWay(config.routes)
    ensures var found := FirstMatch(Built(al, config).routes, name);
            && (found.Success? ==> Selected(config.routes, name, found.value))
            && (found.Failure? ==> found.error == NoRoute
                                   && forall r | r in config.routes :: !MatchRepository(r.pattern, name))
  {
    var routes, sorted := config.routes, Built(al, config).routes;
    StableSortSorts(routes, BY_PRECEDENCE);
    SameElements(sorted, routes);
    FirstMatchOfSorted(sorted, name);
    var found := FirstMatch(sorted, name);
    if found.Success? {
      forall r | r in routes && MatchRepository(r.pattern, name) && r != found.value
        ensures found.value.precedence < r.precedence
      {
        var i :| 0 <= i < |routes| && routes[i] == r;
        var j :| 0 <= j < |routes| && routes[j] == found.value;
        assert !Clash(routes[i], routes[j]) && !Clash(routes[j], routes[i]);
        if r.precedence == found.value.precedence {
          CommonGivesOverlap(r.pattern, found.value.pattern, name);
        }
        assert r in sorted;
      }
    }
  }

  lemma NoClashSurvivesPermutation(a: seq<Route>, b: seq<Route>)
    requires multiset(a) == multiset(b) && NoClashEitherWay(a)
    ensures NoClashEitherWay(b)
  {
    SameElements(a, b);
    forall i, j | 0 <= i < |b| && 0 <= j < |b| && i != j ensures !Clash(b[i], b[j]) {
      assert b[i] in a && b[j] in a;
      if b[i] == b[j] {
        RepeatedIsCounted(b, if i < j then i else j, if i < j then j else i);
        var k, l := CountedIsRepeated(a, b[i]);
        assert !Clash(a[k], a[l]);
      }
    }
  }

  /** Permuting the configured routes changes neither what NewEngine accepts nor any decision. */
  lemma RoutingIgnoresOrder(al: Alphabet, a: Config, b: Config, repository: string, reference: string)
    requires multiset(a.routes) == multiset(b.routes) && a.sources == b.sources
    requires NoClashEitherWay(a.routes)
    ensures Accepts(al, a) <==> Accepts(al, b)
    ensures Built(al, a).ResolvePull(repository, reference) == Built(al, b).ResolvePull(repository, reference)
    ensures Built(al, a).ResolvePush(repository, reference) == Built(al, b).ResolvePush(repository, reference)
  {
    SameElements(a.routes, b.routes);
    NoClashSurvivesPermutation(a.routes, b.routes);
    if Accepts(al, a) { AcceptanceSurvivesPermutation(al, a, b); }
    if Accepts(al, b) { AcceptanceSurvivesPermutation(al, b, a); }
    var n := NormalizeRepository(al, repository);
    if n.Success? {
      NormalizeCutsEnds(al, repository, n.value);
      RouteIsSelected(al, a, n.value);
      RouteIsSelected(al, b, n.value);
      assert Built(al, a).MatchRoute(n.value) == Built(al, b).MatchRoute(n.value);
    }
  }

  lemma AcceptanceSurvivesPermutation(al: Alphabet, a: Config, b: Config)
    requires multiset(a.routes) == multiset(b.routes) && a.sources == b.sources
    requires NoClashEitherWay(b.routes) && Accepts(al, a)
    ensures Accepts(al, b)
  {
    SameElements(a.routes, b.routes);
    forall i | 0 <= i < |b.routes| ensures RouteValid(al, SourceIds(b.sources), b.routes[i]) {
      assert b.routes[i] in a.routes;
    }
    forall i, j | 0 <= i < j < |b.routes| ensures b.routes[i].name != b.routes[j].name {
      assert b.routes[i] in a.routes && b.routes[j] in a.routes;
      assert !Clash(b.routes[i], b.routes[j]);
    }
  }

  ghost predicate Ambiguous(al: Alphabet, routes: seq<Route>) {
    exists i, j :: 0 <= i < j < |routes| && routes[i].precedence == routes[j].precedence
                   && Common(al, routes[i].pattern, routes[j].pattern)
  }

  /** NewEngine asks in one order only, so it lets an ambiguity through exactly when a tree precedes
      a tree around it at the same precedence. */
  lemma AcceptedAmbiguityIff(al: Alphabet, config: Config)
    requires AllCanonical(al, config.routes) && Accepts(al, config)
    ensures Ambiguous(al, config.routes) <==>
            exists i, j :: 0 <= i < j < |config.routes| && config.routes[i].precedence == config.routes[j].precedence
                           && StrictlyInside(config.routes[i].pattern, config.routes[j].pattern)
  {
    var routes := config.routes;
    forall i, j | 0 <= i < j < |routes| && routes[i].precedence == routes[j].precedence
      ensures Common(al, routes[i].pattern, routes[j].pattern) <==> StrictlyInside(routes[i].pattern, routes[j].pattern)
    {
      assert !Clash(routes[i], routes[j]);
      OneOrderMisses(al, routes[i].pattern, routes[j].pattern);
    }
  }

  function Tree(name: string, pattern: string): Route {
    Route(name, pattern, 1, [], "", false, "", false, Rewrite("", ""))
  }

  lemma NestedTrees()
    ensures IsTree("a/a/**") && IsTree("a/**") && TrimSuffix("a/a/**", "/**") == "a/a"
            && TrimSuffix("a/**", "/**") == "a"
    ensures !PatternsOverlap("a/a/**", "a/**") && PatternsOverlap("a/**", "a/a/**")
  {
    assert "a/a/**"[|"a/a/**"| - 3..] == "/**" && "a/**"[|"a/**"| - 3..] == "/**";
    assert Stem("a/a/**") == "a/a/" && Stem("a/**") == "a/";
    assert !("a/a/" <= "a/") && "a/" <= "a/a/";
  }

  lemma NestedNamesAreValid(al: Alphabet)
    ensures Normalized(al, "a/a") && Normalized(al, "a")
  {
    forall i | 0 <= i <= 3 ensures !("//" <= "a/a"[i..]) { SlashesAt("a/a", i); }
    forall i | 0 <= i <= 1 ensures !("//" <= "a"[i..]) { SlashesAt("a", i); }
  }

  /** One order of the same two ambiguous routes is accepted, the other is refused. */
  lemma AcceptanceDependsOnOrder(al: Alphabet)
    ensures Accepts(al, Config([], [Tree("inner", "a/a/**"), Tree("outer", "a/**")]))
    ensures !Accepts(al, Config([], [Tree("outer", "a/**"), Tree("inner", "a/a/**")]))
  {
    NestedTrees();
    NestedNamesAreValid(al);
    NormalizedIsFixed(al, "a/a");
    NormalizedIsFixed(al, "a");
    var refused := [Tree("outer", "a/**"), Tree("inner", "a/a/**")];
    assert Clash(refused[0], refused[1]);
  }
}
