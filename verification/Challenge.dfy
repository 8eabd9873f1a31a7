// The Bearer challenge: printed by internal/gateway/server.go, parsed by internal/registry/http.go
// (section 2.1 of RFC 7235; quoted strings as in section 3.2.6 of RFC 7230).

module Challenge {
  import opened Text

  type Params = map<string, string>

  // strings.ToLower on ASCII.
  function Lower(c: char): char { if 'A' <= c <= 'Z' then ('a' as int + (c as int - 'A' as int)) as char else c }

  function ToLower(s: string): string { seq(|s|, i requires 0 <= i < |s| => Lower(s[i])) }

  // ---------------------------------------------------------------- parsing, as functions of what is left

  function SkipSeparators(s: string): string {
    if s != "" && (s[0] == ' ' || s[0] == ',') then SkipSeparators(s[1..]) else s
  }

  function FirstAt(s: string, c: char): (i: nat)
    ensures i <= |s| && c !in s[..i] && (i < |s| ==> s[i] == c)
  {
    if s == "" || s[0] == c then 0 else 1 + FirstAt(s[1..], c)
  }

  /** The text up to the closing quote, unescaped, and what is left after the quote. */
  function ReadQuoted(s: string): Option<(string, string)> {
    if s == "" then None
    else if s[0] == '"' then Some(("", s[1..]))
    else if s[0] == '\\' && |s| > 1 then Glued([s[1]], ReadQuoted(s[2..]))
    else Glued([s[0]], ReadQuoted(s[1..]))
  }

  function Glued(text: string, r: Option<(string, string)>): Option<(string, string)> {
    match r
    case None => None
    case Some(p) => Some((text + p.0, p.1))
  }

  function ReadValue(s: string): (r: Option<(string, string)>)
    requires s != ""
    ensures r.Some? ==> |r.value.1| <= |s|
  {
    ReadQuotedShrinks(s[1..]);
    if s[0] == '"' then ReadQuoted(s[1..])
    else
      var end := FirstAt(s, ',');
      Some((TrimSpace(s[..end]), s[end..]))
  }

  lemma {:induction false} ReadQuotedShrinks(s: string)
    ensures ReadQuoted(s).Some? ==> |ReadQuoted(s).value.1| < |s|
  {
    if s != "" && s[0] != '"' {
      ReadQuotedShrinks(if s[0] == '\\' && |s| > 1 then s[2..] else s[1..]);
    }
  }

  lemma {:induction false} SkipShrinks(s: string)
    ensures |SkipSeparators(s)| <= |s| && SkipSeparators(s) == s[|s| - |SkipSeparators(s)|..]
  {
    if s != "" && (s[0] == ' ' || s[0] == ',') {
      SkipShrinks(s[1..]);
      var k := |s[1..]| - |SkipSeparators(s)|;
      assert s[1..][k..] == s[k + 1..];
    }
  }

  /** The key before the next '=', and what follows that sign; the key must not be empty. */
  function ReadKey(s: string): (r: Option<(string, string)>)
    ensures r.Some? ==> |r.value.1| < |s| && r.value.1 != ""
  {
    SkipShrinks(s);
    var named := SkipSeparators(s);
    var end := FirstAt(named, '=');
    if |named| <= end + 1 || ToLower(TrimSpace(named[..end])) == "" then None
    else Some((ToLower(TrimSpace(named[..end])), named[end + 1..]))
  }

  function Parse(s: string, params: Params): Option<Params>
    decreases |s|
  {
    if s == "" then Some(params)
    else
      match ReadKey(s)
      case None => None
      case Some((key, rest)) =>
        match ReadValue(rest)
        case None => None
        case Some((value, left)) => Parse(left, params[key := value])
  }

  method ScanSeparators(value: string, start: nat) returns (index: nat)
    requires start <= |value|
    ensures start <= index <= |value| && value[index..] == SkipSeparators(value[start..])
  {
    index := start;
    while index < |value| && (value[index] == ' ' || value[index] == ',')
      invariant start <= index <= |value|
      invariant SkipSeparators(value[index..]) == SkipSeparators(value[start..])
    {
      assert value[index..][1..] == value[index + 1..];
      index := index + 1;
    }
  }

  method ScanUntil(value: string, start: nat, c: char) returns (index: nat)
    requires start <= |value|
    ensures start <= index <= |value| && FirstAt(value[start..], c) == index - start
  {
    index := start;
    while index < |value| && value[index] != c
      invariant start <= index <= |value|
      invariant FirstAt(value[start..], c) == index - start + FirstAt(value[index..], c)
    {
      assert value[index..][1..] == value[index + 1..];
      index := index + 1;
    }
  }

  method ScanQuoted(value: string, start: nat) returns (parsed: Option<string>, index: nat)
    requires start <= |value|
    ensures parsed.Some? ==>
              start < index <= |value| && ReadQuoted(value[start..]) == Some((parsed.value, value[index..]))
    ensures parsed == None ==> ReadQuoted(value[start..]) == None
  {
    index := start;
    var text := "";
    GluedNothing(ReadQuoted(value[start..]));
    while index < |value|
      invariant start <= index <= |value|
      invariant ReadQuoted(value[start..]) == Glued(text, ReadQuoted(value[index..]))
    {
      if value[index] == '"' {
        assert value[index..][1..] == value[index + 1..] && text + "" == text;
        return Some(text), index + 1;
      }
      ghost var left := value[index..];
      if value[index] == '\\' && index + 1 < |value| {
        GluedTwice(text, [value[index + 1]], ReadQuoted(value[index + 2..]));
        assert left[2..] == value[index + 2..] && left[1] == value[index + 1];
        index := index + 1;
      } else {
        GluedTwice(text, [value[index]], ReadQuoted(value[index + 1..]));
        assert left[1..] == value[index + 1..];
      }
      text := text + [value[index]];
      index := index + 1;
    }
    parsed := None;
  }

  method ScanKey(value: string, index: nat) returns (key: string, next: nat)
    requires index < |value|
    ensures key == "" ==> ReadKey(value[index..]) == None
    ensures key != "" ==> index < next < |value| && ReadKey(value[index..]) == Some((key, value[next..]))
  {
    SkipShrinks(value[index..]);
    var keyStart := ScanSeparators(value, index);
    var keyEnd := ScanUntil(value, keyStart, '=');
    if keyEnd + 1 >= |value| {
      return "", 0;
    }
    ghost var named := value[keyStart..];
    assert named[..keyEnd - keyStart] == value[keyStart..keyEnd];
    assert named[keyEnd - keyStart + 1..] == value[keyEnd + 1..];
    key := ToLower(TrimSpace(value[keyStart..keyEnd]));
    next := keyEnd + 1;
  }

  method ScanValue(value: string, index: nat) returns (parsed: Option<string>, next: nat)
    requires index < |value|
    ensures parsed == None ==> ReadValue(value[index..]) == None
    ensures parsed.Some? ==>
              index <= next <= |value| && ReadValue(value[index..]) == Some((parsed.value, value[next..]))
  {
    if value[index] == '"' {
      assert value[index..][1..] == value[index + 1..];
      parsed, next := ScanQuoted(value, index + 1);
    } else {
      next := ScanUntil(value, index, ',');
      ghost var raw := value[index..];
      assert raw[..next - index] == value[index..next] && raw[next - index..] == value[next..];
      parsed := Some(TrimSpace(value[index..next]));
    }
  }

  method ParseChallengeParams(value: string) returns (r: Option<Params>)
    ensures r == Parse(value, map[])
  {
    var params: Params := map[];
    var index := 0;
    assert value[0..] == value;
    while index < |value|
      invariant 0 <= index <= |value|
      invariant Parse(value, map[]) == Parse(value[index..], params)
    {
      var key, valueStart := ScanKey(value, index);
      if key == "" {
        return None;
      }
      var parsed, next := ScanValue(value, valueStart);
      if parsed == None {
        return None;
      }
      params := params[key := parsed.value];
      index := next;
    }
    r := Some(params);
  }

  lemma GluedNothing(r: Option<(string, string)>)
    ensures Glued("", r) == r
  {
    if r.Some? {
      assert "" + r.value.0 == r.value.0;
    }
  }

  lemma GluedTwice(a: string, b: string, r: Option<(string, string)>)
    ensures Glued(a, Glued(b, r)) == Glued(a + b, r)
  {
    if r.Some? {
      assert a + (b + r.value.0) == (a + b) + r.value.0;
    }
  }

  // ---------------------------------------------------------------- printing

  datatype Param = Param(key: string, value: string)

  function Escape(s: string): string {
    if s == "" then "" else (if s[0] == '"' || s[0] == '\\' then ['\\', s[0]] else [s[0]]) + Escape(s[1..])
  }

  // key="value"
  function Field(key: string, value: string): string { key + (['=', '"'] + (value + ['"'])) }

  function Quoted(p: Param): string { Field(p.key, Escape(p.value)) }

  function Print(params: seq<Param>): string {
    if params == [] then "" else Quoted(params[0]) + (if |params| == 1 then "" else [','] + Print(params[1..]))
  }

  predicate TokenKey(key: string) {
    key != "" && forall c | c in key :: c != '=' && c != ',' && !IsSpace(c) && Lower(c) == c
  }

  /** The printed parameters as a map; a key printed twice keeps its last value. */
  function Filled(params: Params, printed: seq<Param>): Params
    decreases |printed|
  {
    if printed == [] then params else Filled(params[printed[0].key := printed[0].value], printed[1..])
  }

  lemma {:induction false} ReadEscaped(value: string, rest: string)
    ensures ReadQuoted(Escape(value) + (['"'] + rest)) == Some((value, rest))
  {
    var close := ['"'] + rest;
    if value == "" {
      assert Escape(value) + close == close && close[1..] == rest;
    } else {
      ReadEscaped(value[1..], rest);
      var c, tail := value[0], Escape(value[1..]) + close;
      var shown := if c == '"' || c == '\\' then ['\\', c] else [c];
      assert (shown + Escape(value[1..])) + close == shown + tail;
      ReadOneCharacter(c, tail);
      assert [c] + value[1..] == value;
    }
  }

  lemma ReadOneCharacter(c: char, tail: string)
    ensures ReadQuoted((if c == '"' || c == '\\' then ['\\', c] else [c]) + tail) == Glued([c], ReadQuoted(tail))
  {
    if c == '"' || c == '\\' {
      assert (['\\', c] + tail)[2..] == tail;
    } else {
      assert ([c] + tail)[1..] == tail;
    }
  }

  lemma TokenIsKept(key: string)
    requires TokenKey(key)
    ensures ToLower(TrimSpace(key)) == key
  {
    assert key[0] in key && key[|key| - 1] in key;
    TrimBare(key, IsSpace);
    forall i | 0 <= i < |key| ensures Lower(key[i]) == key[i] { assert key[i] in key; }
    assert ToLower(key) == key;
  }

  lemma ReadPrintedKey(key: string, rest: string)
    requires TokenKey(key) && rest != ""
    ensures ReadKey(key + (['='] + rest)) == Some((key, rest))
  {
    var left := ['='] + rest;
    var s := key + left;
    assert key[0] in key && s[0] == key[0];
    FirstAtConcat(key, left, '=');
    assert s[..|key|] == key && s[|key| + 1..] == rest;
    TokenIsKept(key);
  }

  lemma ParseOneParam(p: Param, rest: string, params: Params)
    requires TokenKey(p.key)
    ensures Parse(Quoted(p) + rest, params) == Parse(rest, params[p.key := p.value])
  {
    var text := Escape(p.value) + (['"'] + rest);
    var value := ['"'] + text;
    assert Quoted(p) + rest == p.key + (['='] + value);
    ReadPrintedKey(p.key, value);
    assert value[1..] == text;
    ReadEscaped(p.value, rest);
  }

  lemma ParseAfterSeparator(c: char, s: string, params: Params)
    requires (c == ' ' || c == ',') && s != ""
    ensures Parse([c] + s, params) == Parse(s, params)
  {
    assert ([c] + s)[1..] == s;
    assert SkipSeparators([c] + s) == SkipSeparators(s);
  }

  /** Parsing gives back what was printed, whatever characters the values hold. */
  lemma {:induction false} ParsePrinted(printed: seq<Param>, params: Params)
    requires forall p :: p in printed ==> TokenKey(p.key)
    ensures Parse(Print(printed), params) == Some(Filled(params, printed))
  {
    if printed != [] {
      var p, more := printed[0], printed[1..];
      assert p in printed && forall q :: q in more ==> q in printed;
      ParsePrinted(more, params[p.key := p.value]);
      if more == [] {
        assert Print(printed) == Quoted(p) + "";
        ParseOneParam(p, "", params);
      } else {
        ParseOneParam(p, [','] + Print(more), params);
        ParseAfterSeparator(',', Print(more), params[p.key := p.value]);
      }
    }
  }

  // ---------------------------------------------------------------- the Bearer challenge

  datatype Bearer = Bearer(realm: string, service: string, scope: string)

  function Value(params: Params, key: string): string { if key in params then params[key] else "" }

  function ParseBearerChallenge(challenge: string): Option<Bearer> {
    var trimmed := TrimSpace(challenge);
    if |trimmed| < 6 || ToLower(trimmed[..6]) != "bearer" then None
    else BearerOf(Parse(trimmed[6..], map[]))
  }

  function BearerOf(params: Option<Params>): Option<Bearer> {
    if params == None || Value(params.value, "realm") == "" then None
    else Some(Bearer(Value(params.value, "realm"), Value(params.value, "service"), Value(params.value, "scope")))
  }

  function Join(parts: seq<string>, separator: char): string {
    if parts == [] then "" else if |parts| == 1
      then parts[0] else parts[0] + ([separator] + Join(parts[1..], separator))
  }

  function Split(s: string, separator: char): seq<string>
    decreases |s|
  {
    var i := FirstAt(s, separator);
    if i == |s| then [s] else [s[..i]] + Split(s[i + 1..], separator)
  }

  function ChallengeText(c: Bearer): string {
    "Bearer" + ([' '] + ((Field("realm", c.realm) + ([','] + Field("service", c.service)))
                         + if c.scope != "" then [','] + Field("scope", c.scope) else ""))
  }

  function Challenged(https: bool, host: string, repository: string, actions: seq<string>): Bearer {
    Bearer(Realm(https, host), "regstair", if repository != "" && actions != [] then Scope(repository, actions) else "")
  }

  function WriteAuthChallenge(https: bool, host: string, repository: string, actions: seq<string>): string {
    ChallengeText(Challenged(https, host, repository, actions))
  }

  function Realm(https: bool, host: string): string {
    (if https then "https" else "http") + "://" + host + "/auth/token"
  }

  function Scope(repository: string, actions: seq<string>): string {
    "repository" + ([':'] + (repository + ([':'] + Join(actions, ','))))
  }

  predicate Action(action: string) { action == "pull" || action == "push" }

  function ParseTokenScope(scope: string): Option<(string, seq<string>)> {
    if scope == "" then Some(("", []))
    else
      var parts := Split(scope, ':');
      if |parts| != 3 || parts[0] != "repository" || parts[1] == "" then None
      else
        var actions := Split(parts[2], ',');
        if forall a | a in actions :: Action(a) then Some((parts[1], actions)) else None
  }

  lemma {:induction false} FirstAtConcat(a: string, rest: string, c: char)
    ensures FirstAt(a + rest, c) == if FirstAt(a, c) < |a| then FirstAt(a, c) else |a| + FirstAt(rest, c)
  {
    if a == "" {
      assert a + rest == rest;
    } else {
      FirstAtConcat(a[1..], rest, c);
      assert (a + rest)[1..] == a[1..] + rest;
    }
  }

  lemma SplitUnseparated(a: string, separator: char, b: string)
    requires separator !in a
    ensures Split(a + ([separator] + b), separator) == [a] + Split(b, separator)
  {
    var s := a + ([separator] + b);
    FirstAtConcat(a, [separator] + b, separator);
    assert FirstAt(s, separator) == |a|;
    assert s[..|a|] == a;
    assert s[|a| + 1..] == b;
  }

  lemma Regroup<T>(a: seq<T>, b: seq<T>, c: seq<T>)
    ensures (a + b) + c == a + (b + c)
  {}

  lemma CutAt(s: string, i: nat)
    requires i < |s|
    ensures s == s[..i] + ([s[i]] + s[i + 1..])
  {}

  lemma {:induction false} SplitAtSeparator(a: string, separator: char, b: string)
    ensures Split(a + ([separator] + b), separator) == Split(a, separator) + Split(b, separator)
    decreases |a|
  {
    var i := FirstAt(a, separator);
    if i == |a| {
      SplitUnseparated(a, separator, b);
    } else {
      SplitAtSeparator(a[i + 1..], separator, b);
      CutAt(a, i);
      SplitLater(a[..i], separator, a[i + 1..], b);
    }
  }

  lemma SplitLater(first: string, separator: char, rest: string, b: string)
    requires separator !in first
    requires Split(rest + ([separator] + b), separator) == Split(rest, separator) + Split(b, separator)
    ensures var a := first + ([separator] + rest);
            Split(a + ([separator] + b), separator) == Split(a, separator) + Split(b, separator)
  {
    var tail := rest + ([separator] + b);
    SplitUnseparated(first, separator, rest);
    SplitUnseparated(first, separator, tail);
    Regroup(first, [separator] + rest, [separator] + b);
    Regroup([separator], rest, [separator] + b);
    Regroup([first], Split(rest, separator), Split(b, separator));
  }

  lemma SplitWhole(s: string, separator: char)
    ensures separator !in s ==> Split(s, separator) == [s]
    ensures separator in s ==> |Split(s, separator)| >= 2
  {
    var i := FirstAt(s, separator);
    if i < |s| {
      assert s[i] in s;
    } else {
      assert s[..i] == s;
    }
    if separator in s {
      assert |Split(s[i + 1..], separator)| >= 1;
    }
  }

  lemma {:induction false} SplitJoined(parts: seq<string>, separator: char)
    requires parts != [] && forall p :: p in parts ==> separator !in p
    ensures Split(Join(parts, separator), separator) == parts
  {
    assert parts == [parts[0]] + parts[1..];
    SplitWhole(parts[0], separator);
    if |parts| > 1 {
      SplitJoined(parts[1..], separator);
      SplitAtSeparator(parts[0], separator, Join(parts[1..], separator));
    }
  }

  lemma {:induction false} JoinedActions(actions: seq<string>)
    requires forall a :: a in actions ==> Action(a)
    ensures forall c :: c in Join(actions, ',') ==> c in "pulsh,"
  {
    if actions != [] {
      assert actions[0] in actions;
      if |actions| > 1 {
        JoinedActions(actions[1..]);
      }
    }
  }

  lemma ThreeParts(a: string, b: string, c: string, separator: char)
    requires separator !in a && separator !in c
    ensures Split(a + ([separator] + (b + ([separator] + c))), separator) == [a] + (Split(b, separator) + [c])
  {
    SplitAtSeparator(a, separator, b + ([separator] + c));
    SplitAtSeparator(b, separator, c);
    SplitWhole(a, separator);
    SplitWhole(c, separator);
  }

  /** A scope is understood as it was printed exactly when the repository holds no colon. */
  lemma ScopeRoundTrip(repository: string, actions: seq<string>)
    requires repository != "" && actions != [] && forall a :: a in actions ==> Action(a)
    ensures ParseTokenScope(Scope(repository, actions)) ==
              (if ':' in repository then None else Some((repository, actions)))
  {
    JoinedActions(actions);
    ThreeParts("repository", repository, Join(actions, ','), ':');
    SplitWhole(repository, ':');
    forall a | a in actions ensures ',' !in a { assert Action(a); }
    SplitJoined(actions, ',');
    assert Scope(repository, actions)[0] == 'r';
  }

  predicate Plain(s: string) { '"' !in s && '\\' !in s }

  lemma {:induction false} PlainNeedsNoEscape(s: string)
    requires Plain(s)
    ensures Escape(s) == s
  {
    if s != "" {
      PlainNeedsNoEscape(s[1..]);
      assert s == [s[0]] + s[1..];
    }
  }

  function Printed(c: Bearer): seq<Param> {
    [Param("realm", c.realm), Param("service", c.service)] + if c.scope != "" then [Param("scope", c.scope)] else []
  }

  lemma PlainScope(repository: string, actions: seq<string>)
    requires Plain(repository) && forall a :: a in actions ==> Action(a)
    ensures Plain(Scope(repository, actions))
  {
    JoinedActions(actions);
  }

  lemma ChallengeIsPrinted(c: Bearer)
    requires Plain(c.realm) && Plain(c.service) && Plain(c.scope)
    ensures ChallengeText(c) == "Bearer" + ([' '] + Print(Printed(c)))
  {
    PlainNeedsNoEscape(c.realm);
    PlainNeedsNoEscape(c.service);
    PlainNeedsNoEscape(c.scope);
    PrintTwoOrThree(Printed(c));
  }

  lemma PrintTwoOrThree(printed: seq<Param>)
    requires 2 <= |printed| <= 3
    ensures Print(printed) == (Quoted(printed[0]) + ([','] + Quoted(printed[1])))
                              + if |printed| == 3 then [','] + Quoted(printed[2]) else ""
  {
    var more := printed[1..];
    if |printed| == 3 {
      assert more[1..] == [printed[2]];
      assert Print(more[1..]) == Quoted(printed[2]) + "";
    }
    assert Print(more) == Quoted(printed[1]) + (if |printed| == 3 then [','] + Print(more[1..]) else "");
  }

  lemma PlainRealm(https: bool, host: string)
    requires Plain(host)
    ensures Plain(Realm(https, host))
  {}

  lemma AfterScheme(scheme: string, body: string)
    requires |scheme| == 6 && !IsSpace(scheme[0]) && body != "" && body[|body| - 1] == '"'
    ensures var challenge := scheme + ([' '] + body);
            && TrimSpace(challenge) == challenge && challenge[..6] == scheme
            && Parse(challenge[6..], map[]) == Parse(body, map[])
  {
    var challenge := scheme + ([' '] + body);
    TrimBare(challenge, IsSpace);
    assert challenge[6..] == [' '] + body;
    ParseAfterSeparator(' ', body, map[]);
  }

  lemma {:induction false} PrintEndsInQuote(printed: seq<Param>)
    requires printed != []
    ensures Print(printed) != "" && Print(printed)[|Print(printed)| - 1] == '"'
  {
    if |printed| > 1 {
      PrintEndsInQuote(printed[1..]);
    }
  }

  lemma KeysAreTokens()
    ensures TokenKey("realm") && TokenKey("service") && TokenKey("scope")
    ensures "realm" != "service" && "realm" != "scope" && "service" != "scope"
  {
    assert |"realm"| == 5 && |"service"| == 7 && "scope"[0] != "realm"[0];
  }

  lemma PrintedValues(c: Bearer)
    ensures var m := Filled(map[], Printed(c));
            Value(m, "realm") == c.realm && Value(m, "service") == c.service && Value(m, "scope") == c.scope
  {
    var printed := Printed(c);
    KeysAreTokens();
    FilledThree(printed);
    var m := Filled(map[], printed);
    assert Value(m, printed[0].key) == c.realm && Value(m, printed[1].key) == c.service;
    if |printed| == 3 {
      assert Value(m, printed[2].key) == c.scope;
    }
  }

  lemma PrintedIsUnderstood(c: Bearer)
    requires c.realm != ""
    ensures BearerOf(Parse(Print(Printed(c)), map[])) == Some(c)
  {
    KeysAreTokens();
    assert forall p :: p in Printed(c) ==> p.key == "realm" || p.key == "service" || p.key == "scope";
    ParsePrinted(Printed(c), map[]);
    PrintedValues(c);
  }

  lemma BearerRoundTrip(c: Bearer)
    requires Plain(c.realm) && Plain(c.service) && Plain(c.scope) && c.realm != ""
    ensures ParseBearerChallenge(ChallengeText(c)) == Some(c)
  {
    var body := Print(Printed(c));
    ChallengeIsPrinted(c);
    PrintEndsInQuote(Printed(c));
    var scheme := "Bearer";
    assert ToLower(scheme) == "bearer";
    AfterScheme(scheme, body);
    PrintedIsUnderstood(c);
  }

  lemma RealmText(https: bool, host: string)
    ensures Realm(https, host) == (if https then "https://" else "http://") + (host + "/auth/token")
  {
    assert "https" + "://" == "https://" && "http" + "://" == "http://";
    Regroup(if https then "https://" else "http://", host, "/auth/token");
  }

  /** A client that parses the gateway's challenge learns the realm, the service and the scope the
      gateway meant, and the token endpoint reads that scope back. */
  lemma ChallengeRoundTrip(https: bool, host: string, repository: string, actions: seq<string>)
    requires Plain(host) && Plain(repository) && ':' !in repository
    requires forall a :: a in actions ==> Action(a)
    ensures var parsed := ParseBearerChallenge(WriteAuthChallenge(https, host, repository, actions));
            && parsed == Some(Challenged(https, host, repository, actions))
            && parsed.value.realm == (if https then "https://" else "http://") + (host + "/auth/token")
            && parsed.value.service == "regstair"
            && ParseTokenScope(parsed.value.scope) ==
               Some(if repository != "" && actions != [] then (repository, actions) else ("", []))
  {
    PlainRealm(https, host);
    RealmText(https, host);
    PlainScope(repository, actions);
    BearerRoundTrip(Challenged(https, host, repository, actions));
    if repository != "" && actions != [] {
      ScopeRoundTrip(repository, actions);
    }
  }

  lemma FilledThree(printed: seq<Param>)
    requires 2 <= |printed| <= 3 && (forall i, j :: 0 <= i < j < |printed| ==> printed[i].key != printed[j].key)
    ensures var m := Filled(map[], printed);
            && (forall i :: 0 <= i < |printed| ==> Value(m, printed[i].key) == printed[i].value)
            && (forall key :: key in m ==> exists i :: 0 <= i < |printed| && printed[i].key == key)
  {
    var m1: Params := map[printed[0].key := printed[0].value];
    var m2 := m1[printed[1].key := printed[1].value];
    var more := printed[1..];
    assert Filled(map[], printed) == Filled(m1, more) == Filled(m2, more[1..]);
    if |printed| == 3 {
      assert more[1..] == [printed[2]];
      assert Filled(m2, more[1..]) == Filled(m2[printed[2].key := printed[2].value], []);
    }
  }

  // ---------------------------------------------------------------- everything the parsers take

  lemma {:induction false} SplitParts(s: string, separator: char)
    ensures Split(s, separator) != [] && forall part :: part in Split(s, separator) ==> separator !in part
    decreases |s|
  {
    var i := FirstAt(s, separator);
    if i < |s| {
      SplitParts(s[i + 1..], separator);
    } else {
      assert s[..i] == s;
    }
  }

  /** Joining undoes splitting. */
  lemma {:induction false} JoinSplit(s: string, separator: char)
    ensures Join(Split(s, separator), separator) == s
    decreases |s|
  {
    var i := FirstAt(s, separator);
    if i < |s| {
      JoinSplit(s[i + 1..], separator);
      SplitParts(s[i + 1..], separator);
      var parts := Split(s, separator);
      assert parts[1..] == Split(s[i + 1..], separator) && parts[0] == s[..i];
      CutAt(s, i);
    }
  }

  lemma JoinThree(a: string, b: string, c: string, separator: char)
    ensures Join([a, b, c], separator) == a + ([separator] + (b + ([separator] + c)))
  {
    assert [a, b, c][1..] == [b, c] && [b, c][1..] == [c];
    assert Join([b, c], separator) == b + ([separator] + Join([c], separator));
  }

  lemma ScopeParts(scope: string)
    requires |Split(scope, ':')| == 3 && Split(scope, ':')[0] == "repository"
    ensures var parts := Split(scope, ':');
            && scope == "repository" + ([':'] + (parts[1] + ([':'] + Join(Split(parts[2], ','), ','))))
            && ':' !in parts[1]
  {
    var parts := Split(scope, ':');
    JoinSplit(scope, ':');
    assert parts == [parts[0], parts[1], parts[2]];
    JoinThree(parts[0], parts[1], parts[2], ':');
    JoinSplit(parts[2], ',');
    SplitParts(scope, ':');
    assert parts[1] in parts;
  }

  /** A scope is accepted exactly if it is empty or one that is printed for a repository without a colon and one or more
      of the known actions, and it then means those. */
  lemma ScopeIff(scope: string, repository: string, actions: seq<string>)
    ensures ParseTokenScope(scope) == Some((repository, actions)) <==>
            if scope == "" then repository == "" && actions == []
            else
              && repository != "" && ':' !in repository && actions != []
              && (forall a :: a in actions ==> a == "pull" || a == "push") && scope == Scope(repository, actions)
  {
    if scope != "" {
      if ParseTokenScope(scope) == Some((repository, actions)) {
        ScopeParts(scope);
        SplitParts(Split(scope, ':')[2], ',');
      } else if repository != "" && ':' !in repository && actions != [] && (forall a :: a in actions ==> Action(a))
                && scope == Scope(repository, actions) {
        ScopeRoundTrip(repository, actions);
      }
    }
  }

  // The value that is printed last under a key, or none.
  function LastValue(printed: seq<Param>, key: string): string {
    if printed == [] then ""
    else if printed[|printed| - 1].key == key then printed[|printed| - 1].value
    else LastValue(printed[..|printed| - 1], key)
  }

  lemma {:induction false} FilledJoins(params: Params, a: seq<Param>, b: seq<Param>)
    ensures Filled(params, a + b) == Filled(Filled(params, a), b)
    decreases |a|
  {
    if a == [] {
      assert a + b == b;
    } else {
      assert (a + b)[0] == a[0] && (a + b)[1..] == a[1..] + b;
      FilledJoins(params[a[0].key := a[0].value], a[1..], b);
    }
  }

  lemma {:induction false} LastValueIsFilled(printed: seq<Param>, key: string)
    ensures Value(Filled(map[], printed), key) == LastValue(printed, key)
  {
    if printed != [] {
      var before, last := printed[..|printed| - 1], printed[|printed| - 1];
      LastValueIsFilled(before, key);
      assert printed == before + [last];
      FilledJoins(map[], before, [last]);
      assert [last][1..] == [];
      assert Filled(Filled(map[], before), [last]) == Filled(Filled(map[], before)[last.key := last.value], []);
    }
  }

  /** A challenge under any six letters is understood exactly if they spell "Bearer" in whatever case and a realm is
      given:
      whatever parameters are printed, and in whatever order, the last value of each counts. */
  lemma AnyChallengeIsUnderstood(scheme: string, printed: seq<Param>)
    requires |scheme| == 6 && !IsSpace(scheme[0]) && printed != [] && forall p :: p in printed ==> TokenKey(p.key)
    ensures ParseBearerChallenge(scheme + ([' '] + Print(printed))) ==
            if ToLower(scheme) == "bearer" && LastValue(printed, "realm") != ""
            then Some(Bearer(LastValue(printed, "realm"), LastValue(printed, "service"), LastValue(printed, "scope")))
            else None
  {
    PrintEndsInQuote(printed);
    AfterScheme(scheme, Print(printed));
    ParsePrinted(printed, map[]);
    LastValueIsFilled(printed, "realm");
    LastValueIsFilled(printed, "service");
    LastValueIsFilled(printed, "scope");
  }

  /** Spaces around a challenge do not matter. */
  lemma ChallengeIsTrimmed(challenge: string)
    ensures ParseBearerChallenge(challenge) == ParseBearerChallenge(TrimSpace(challenge))
  {
    var lead, tail := TrimCutsEnds(challenge, IsSpace);
    TrimBare(TrimSpace(challenge), IsSpace);
  }

  lemma WordIsLowered(key: string, rest: string)
    requires key != "" && rest != "" && forall c :: c in key ==> c != '=' && c != ',' && !IsSpace(c)
    ensures ReadKey(key + (['='] + rest)) == Some((ToLower(key), rest))
  {
    var left := ['='] + rest;
    var s := key + left;
    assert key[0] in key && key[|key| - 1] in key && s[0] == key[0];
    FirstAtConcat(key, left, '=');
    assert '=' !in key && SkipSeparators(s) == s && FirstAt(key, '=') == |key| && FirstAt(left, '=') == 0;
    assert s[..|key|] == key && s[|key| + 1..] == rest;
    TrimBare(key, IsSpace);
    assert |ToLower(key)| == |key|;
  }

  /** Keys are read in lower case, however they are written. */
  lemma KeysIgnoreCase(key: string, value: string, rest: string, params: Params)
    requires key != "" && forall c :: c in key ==> c != '=' && c != ',' && !IsSpace(c)
    ensures Parse(Quoted(Param(key, value)) + rest, params) == Parse(rest, params[ToLower(key) := value])
  {
    var text := Escape(value) + (['"'] + rest);
    var quoted := ['"'] + text;
    assert Quoted(Param(key, value)) + rest == key + (['='] + quoted);
    WordIsLowered(key, quoted);
    assert quoted[1..] == text;
    ReadEscaped(value, rest);
  }

  /** A value without quotes goes up to the next comma, spaces at its ends cut off. */
  lemma BareValue(key: string, value: string, rest: string, params: Params)
    requires TokenKey(key) && value != "" && value[0] != '"' && ',' !in value
    ensures Parse(key + (['='] + value), params) == Some(params[key := TrimSpace(value)])
    ensures rest != "" ==>
              Parse(key + (['='] + (value + ([','] + rest))), params) == Parse(rest, params[key := TrimSpace(value)])
  {
    ReadPrintedKey(key, value);
    FirstAtConcat(value, "", ',');
    assert value + "" == value && value[..|value|] == value && value[|value|..] == "";
    if rest != "" {
      var tail := value + ([','] + rest);
      ReadPrintedKey(key, tail);
      FirstAtConcat(value, [','] + rest, ',');
      assert tail[..|value|] == value && tail[|value|..] == [','] + rest;
      ParseAfterSeparator(',', rest, params[key := TrimSpace(value)]);
    }
  }

  lemma {:induction false} UnclosedIsUnread(value: string)
    ensures ReadQuoted(Escape(value)) == None
  {
    if value != "" {
      UnclosedIsUnread(value[1..]);
      ReadOneCharacter(value[0], Escape(value[1..]));
    }
  }

  lemma UnclosedIsRefused(key: string, value: string, params: Params)
    requires TokenKey(key)
    ensures Parse(key + (['='] + (['"'] + Escape(value))), params) == None
  {
    var quoted := ['"'] + Escape(value);
    ReadPrintedKey(key, quoted);
    assert quoted[1..] == Escape(value);
    UnclosedIsUnread(value);
  }

  lemma ValuelessIsRefused(key: string, params: Params)
    requires TokenKey(key)
    ensures Parse(key, params) == None && Parse(key + ['='], params) == None
  {
    assert key[0] in key && (key + ['='])[0] == key[0];
    FirstAtConcat(key, ['='], '=');
    assert '=' !in key;
    assert ReadKey(key) == None && ReadKey(key + ['=']) == None;
  }

  lemma KeylessIsRefused(value: string, params: Params)
    ensures Parse(['='] + value, params) == None
  {
    var s := ['='] + value;
    assert SkipSeparators(s) == s && FirstAt(s, '=') == 0;
    assert s[..0] == "" && TrimSpace("") == "" && ToLower("") == "";
    assert ReadKey(s) == None;
  }

  /** A quote that is not closed, a parameter without a value and one without a key are refused. */
  lemma BrokenParamsAreRefused(key: string, value: string, params: Params)
    requires TokenKey(key)
    ensures Parse(key + (['='] + (['"'] + Escape(value))), params) == None
    ensures Parse(key, params) == None && Parse(key + ['='], params) == None
    ensures Parse(['='] + value, params) == None
  {
    UnclosedIsRefused(key, value, params);
    ValuelessIsRefused(key, params);
    KeylessIsRefused(value, params);
  }
}
