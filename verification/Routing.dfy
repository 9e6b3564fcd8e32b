/** The frontend section as a compiler: Domain rows become ACL lines, redirect rules
    and use_backend lines, and a small evaluator says what those lines mean. */
module Routing {
  import opened Wrappers
  import opened Text
  import opened RouteNames

  // ---- the rows

  datatype Domain = Domain(
    id: int, hostname: string, matchType: string, pathPrefix: string, backendId: Option<int>,
    redirectTo: string, redirectCode: int, forceHttps: bool, enabled: bool)

  datatype Backend = Backend(name: string, enabled: bool)

  datatype Acl = Acl(name: string, expression: string, enabled: bool)

  /** One word of a condition: a named ACL, the TLS test, the rate test, or an
      anonymous test of the operator's. */
  datatype Literal =
    | Named(name: string, negated: bool)
    | Tls(negated: bool)
    | OverRate
    | Anonymous(text: string, negated: bool)

  /** Alternatives of conjunctions, taken positively (if) or negatively (unless). */
  datatype Condition = Always | If(terms: seq<seq<Literal>>) | Unless(terms: seq<seq<Literal>>)

  datatype Outcome =
    | Denied(status: int)
    | ToHttps(code: int)
    | Redirected(location: string, code: int)
    | Operator(action: string)
    | Served(backend: string)
    | Unserved

  /** An operator rule by what it does to routing. Directives that neither end a
      request nor choose a backend nor define an ACL are Inert. */
  datatype RuleKind =
    | HttpFinal(action: string)
    | OldRedirect(action: string)
    | ChooseBackend(name: string)
    | DefineAcl(name: string, expression: string)
    | Inert(text: string)

  datatype Rule = Rule(kind: RuleKind, condition: Condition, enabled: bool)

  datatype Frontend = Frontend(
    mode: string, forceHttps: bool, rateLimited: bool, rateLimit: int, defaultBackend: Option<int>)

  /** Everything renderFrontend reads about routing. */
  datatype Section = Section(
    frontend: Frontend, acls: seq<Acl>, rules: seq<Rule>, domains: seq<Domain>, backends: map<int, Backend>)

  // ---- the lines

  datatype Pattern =
    | HostIs(value: string)
    | HostEnds(value: string)
    | HostMatches(expression: string)
    | PathBegins(prefix: string)
    | Expression(text: string)

  datatype Line =
    | AclLine(name: string, pattern: Pattern)
    | HttpRequest(outcome: Option<Outcome>, condition: Condition)   // None: not final
    | RedirectLine(target: Outcome, condition: Condition)
    | UseBackend(name: string, condition: Condition)
    | DefaultBackend(name: string)
    | OtherLine(text: string)

  // ---- what the lines mean

  /** A request, with the tests the model does not look into as predicates. */
  datatype Request = Request(
    host: Option<string>, path: string, tls: bool, overRate: bool,
    matches: (string, string) -> bool, holds: string -> bool)

  /** req.hdr(host),lower,field(1,:) */
  function HostOf(r: Request): Option<string> {
    if r.host == None then None
    else
      var host := ToLower(r.host.value);
      var i := IndexByte(host, ':');
      Some(if i < 0 then host else host[..i])
  }

  /** path_beg takes every word behind it as an alternative. */
  predicate PathMatches(prefix: string, path: string) {
    exists k :: 0 <= k < |Fields(prefix)| && HasPrefix(path, Fields(prefix)[k])
  }

  predicate PatternHolds(p: Pattern, r: Request) {
    match p
    case HostIs(value) => HostOf(r) == Some(value)
    case HostEnds(value) => HostOf(r).Some? && HasSuffix(HostOf(r).value, value)
    case HostMatches(expression) => HostOf(r).Some? && r.matches(expression, HostOf(r).value)
    case PathBegins(prefix) => PathMatches(prefix, r.path)
    case Expression(text) => r.holds(text)
  }

  /** The ACL names that hold: a repeated name holds when any of its lines does. */
  function TrueNames(lines: seq<Line>, r: Request): set<string> {
    if lines == [] then {}
    else (if lines[0].AclLine? && PatternHolds(lines[0].pattern, r) then {lines[0].name} else {})
         + TrueNames(lines[1..], r)
  }

  predicate LiteralHolds(l: Literal, names: set<string>, r: Request) {
    match l
    case Named(name, negated) => (name in names) != negated
    case Tls(negated) => r.tls != negated
    case OverRate => r.overRate
    case Anonymous(text, negated) => r.holds(text) != negated
  }

  predicate TermHolds(term: seq<Literal>, names: set<string>, r: Request) {
    forall k :: 0 <= k < |term| ==> LiteralHolds(term[k], names, r)
  }

  predicate Holds(c: Condition, names: set<string>, r: Request) {
    match c
    case Always => true
    case If(terms) => exists k :: 0 <= k < |terms| && TermHolds(terms[k], names, r)
    case Unless(terms) => !exists k :: 0 <= k < |terms| && TermHolds(terms[k], names, r)
  }

  /** http-request rules run in order and the first final one ends the request. */
  function FirstFinal(lines: seq<Line>, names: set<string>, r: Request): Option<Outcome> {
    if lines == [] then None
    else if lines[0].HttpRequest? && lines[0].outcome.Some? && Holds(lines[0].condition, names, r) then lines[0].outcome
    else FirstFinal(lines[1..], names, r)
  }

  /** Plain redirect rules run after them. */
  function FirstRedirect(lines: seq<Line>, names: set<string>, r: Request): Option<Outcome> {
    if lines == [] then None
    else if lines[0].RedirectLine? && Holds(lines[0].condition, names, r) then Some(lines[0].target)
    else FirstRedirect(lines[1..], names, r)
  }

  /** Then the first matching use_backend is taken. */
  function FirstBackend(lines: seq<Line>, names: set<string>, r: Request): Option<Outcome> {
    if lines == [] then None
    else if lines[0].UseBackend? && Holds(lines[0].condition, names, r) then Some(Served(lines[0].name))
    else FirstBackend(lines[1..], names, r)
  }

  /** And at last the default backend. */
  function Default(lines: seq<Line>): Option<Outcome> {
    if lines == [] then None
    else if lines[0].DefaultBackend? then Some(Served(lines[0].name))
    else Default(lines[1..])
  }

  function Or(a: Option<Outcome>, b: Option<Outcome>): Option<Outcome> {
    if a.Some? then a else b
  }

  function Evaluate(mode: string, lines: seq<Line>, r: Request): Outcome {
    var names := TrueNames(lines, r);
    var early := if mode == "http" then Or(FirstFinal(lines, names, r), FirstRedirect(lines, names, r)) else None;
    Or(early, Or(FirstBackend(lines, names, r), Default(lines))).GetOr(Unserved)
  }

  // ---- what the rows mean, without any line

  function Bare(d: Domain): string {
    TrimPrefix(ToLower(TrimSpace(d.hostname)), "*.")
  }

  /** A route matches a host by the labels of its name. */
  predicate RouteHost(d: Domain, r: Request) {
    var host := HostOf(r);
    && host.Some?
    && if d.matchType == "subdomain" then SuffixOf(Labels(Bare(d)), Labels(host.value))
       else if d.matchType == "wildcard" then
         SuffixOf(Labels(Bare(d)), Labels(host.value)) && |Labels(Bare(d))| < |Labels(host.value)|
       else if d.matchType == "regex" then r.matches(ToLower(TrimSpace(d.hostname)), host.value)
       else host.value == ToLower(TrimSpace(d.hostname))
  }

  predicate RoutePath(d: Domain, r: Request) {
    d.pathPrefix != "" && PathMatches(d.pathPrefix, r.path)
  }

  predicate RouteMatches(d: Domain, r: Request) {
    d.enabled && RouteHost(d, r) && (d.pathPrefix == "" || RoutePath(d, r))
  }

  function HostName(d: Domain): string {
    AclName(HOST_PREFIX, d.hostname, d.id)
  }

  function PathName(d: Domain): string {
    AclName(PATH_PREFIX, d.hostname, d.id)
  }

  /** The names an operator condition may use, and what they mean. */
  function OperatorNames(acls: seq<Acl>, r: Request): set<string> {
    if acls == [] then {}
    else (if acls[0].enabled && r.holds(acls[0].expression) then {acls[0].name} else {})
         + OperatorNames(acls[1..], r)
  }

  function RuleNames(rules: seq<Rule>, r: Request): set<string> {
    if rules == [] then {}
    else (if rules[0].enabled && rules[0].kind.DefineAcl? && r.holds(rules[0].kind.expression)
          then {rules[0].kind.name} else {})
         + RuleNames(rules[1..], r)
  }

  function RouteNamesOf(domains: seq<Domain>, r: Request): set<string> {
    if domains == [] then {}
    else (if domains[0].enabled && RouteHost(domains[0], r) then {HostName(domains[0])} else {})
         + (if domains[0].enabled && RoutePath(domains[0], r) then {PathName(domains[0])} else {})
         + RouteNamesOf(domains[1..], r)
  }

  function Meaning(s: Section, r: Request): set<string> {
    OperatorNames(s.acls, r) + RouteNamesOf(s.domains, r) + RuleNames(s.rules, r)
  }

  /** What one route makes of a request that it matches. */
  function RouteRedirect(f: Frontend, d: Domain, r: Request): Option<Outcome> {
    if d.forceHttps && !f.forceHttps && f.mode == "http" && !r.tls then Some(ToHttps(301))
    else if TrimSpace(d.redirectTo) != "" then
      Some(Redirected(TrimSpace(d.redirectTo), if d.redirectCode == 0 then 301 else d.redirectCode))
    else None
  }

  function FirstRouteRedirect(f: Frontend, domains: seq<Domain>, r: Request): Option<Outcome> {
    if domains == [] then None
    else Or(if RouteMatches(domains[0], r) then RouteRedirect(f, domains[0], r) else None,
            FirstRouteRedirect(f, domains[1..], r))
  }

  function FirstRule(
    rules: seq<Rule>, names: set<string>, r: Request, pick: RuleKind -> Option<Outcome>): Option<Outcome>
  {
    if rules == [] then None
    else Or(if rules[0].enabled && Holds(rules[0].condition, names, r) then pick(rules[0].kind) else None,
            FirstRule(rules[1..], names, r, pick))
  }

  function PickFinal(k: RuleKind): Option<Outcome> {
    if k.HttpFinal? then Some(Operator(k.action)) else None
  }

  function PickRedirect(k: RuleKind): Option<Outcome> {
    if k.OldRedirect? then Some(Operator(k.action)) else None
  }

  function PickBackend(k: RuleKind): Option<Outcome> {
    if k.ChooseBackend? then Some(Served(k.name)) else None
  }

  /** The backend of a route, when it still exists and is enabled. */
  function Target(backends: map<int, Backend>, id: Option<int>): Option<Outcome> {
    if id.Some? && id.value in backends && backends[id.value].enabled
    then Some(Served(backends[id.value].name)) else None
  }

  function FirstRouteBackend(s: Section, domains: seq<Domain>, r: Request): Option<Outcome> {
    if domains == [] then None
    else Or(if RouteMatches(domains[0], r) then Target(s.backends, domains[0].backendId) else None,
            FirstRouteBackend(s, domains[1..], r))
  }

  /** The walk an operator has in mind: the rate limit, HTTPS, the first matching
      route that redirects, the operator's rules, the first matching route with a
      live backend, the default. */
  function Walk(s: Section, r: Request): Outcome {
    var f, names := s.frontend, Meaning(s, r);
    var early :=
      if f.mode != "http" then None
      else if f.rateLimited && f.rateLimit > 0 && r.overRate then Some(Denied(429))
      else if f.forceHttps && !r.tls then Some(ToHttps(301))
      else
        Or(FirstRouteRedirect(f, s.domains, r),
           Or(FirstRule(s.rules, names, r, PickFinal), FirstRule(s.rules, names, r, PickRedirect)));
    var backend :=
      Or(FirstRule(s.rules, names, r, PickBackend),
         Or(FirstRouteBackend(s, s.domains, r), Target(s.backends, f.defaultBackend)));
    Or(early, backend).GetOr(Unserved)
  }

  // ---- the compiler

  function Enabled(domains: seq<Domain>): seq<Domain> {
    if domains == [] then []
    else (if domains[0].enabled then [domains[0]] else []) + Enabled(domains[1..])
  }

  function AclLines(acls: seq<Acl>): seq<Line> {
    if acls == [] then []
    else (if acls[0].enabled then [AclLine(acls[0].name, Expression(acls[0].expression))] else [])
         + AclLines(acls[1..])
  }

  /** hostACLLines: repeating the name is how alternatives are written. */
  function HostLines(name: string, d: Domain): seq<Line> {
    var host := ToLower(TrimSpace(d.hostname));
    if d.matchType == "subdomain" then [AclLine(name, HostIs(Bare(d))), AclLine(name, HostEnds("." + Bare(d)))]
    else if d.matchType == "wildcard" then [AclLine(name, HostEnds("." + Bare(d)))]
    else if d.matchType == "regex" then [AclLine(name, HostMatches(host))]
    else [AclLine(name, HostIs(host))]
  }

  function PathLines(d: Domain): seq<Line> {
    if d.pathPrefix == "" then [] else [AclLine(PathName(d), PathBegins(d.pathPrefix))]
  }

  function RouteAclLines(domains: seq<Domain>): seq<Line> {
    if domains == [] then []
    else HostLines(HostName(domains[0]), domains[0]) + PathLines(domains[0]) + RouteAclLines(domains[1..])
  }

  function RouteTerm(d: Domain): seq<Literal> {
    [Named(HostName(d), false)] + (if d.pathPrefix == "" then [] else [Named(PathName(d), false)])
  }

  function RedirectLines(f: Frontend, d: Domain): seq<Line> {
    (if d.forceHttps && !f.forceHttps && f.mode == "http"
     then [HttpRequest(Some(ToHttps(301)), If([RouteTerm(d) + [Tls(true)]]))] else [])
    + (if TrimSpace(d.redirectTo) == "" then []
       else [HttpRequest(Some(Redirected(TrimSpace(d.redirectTo), if d.redirectCode == 0 then 301 else d.redirectCode)),
                         If([RouteTerm(d)]))])
  }

  function AllRedirectLines(f: Frontend, domains: seq<Domain>): seq<Line> {
    if domains == [] then [] else RedirectLines(f, domains[0]) + AllRedirectLines(f, domains[1..])
  }

  function RuleLine(rule: Rule): Line {
    match rule.kind
    case HttpFinal(action) => HttpRequest(Some(Operator(action)), rule.condition)
    case OldRedirect(action) => RedirectLine(Operator(action), rule.condition)
    case ChooseBackend(name) => UseBackend(name, rule.condition)
    case DefineAcl(name, expression) => AclLine(name, Expression(expression))
    case Inert(text) => OtherLine(text)
  }

  function RuleLines(rules: seq<Rule>): seq<Line> {
    if rules == [] then []
    else (if rules[0].enabled then [RuleLine(rules[0])] else []) + RuleLines(rules[1..])
  }

  function BackendLine(backends: map<int, Backend>, d: Domain): seq<Line> {
    if Target(backends, d.backendId).Some?
    then [UseBackend(backends[d.backendId.value].name, If([RouteTerm(d)]))] else []
  }

  function BackendLines(backends: map<int, Backend>, domains: seq<Domain>): seq<Line> {
    if domains == [] then [] else BackendLine(backends, domains[0]) + BackendLines(backends, domains[1..])
  }

  function RateLines(f: Frontend): seq<Line> {
    if f.rateLimited && f.rateLimit > 0 then
      [OtherLine("stick-table"), HttpRequest(None, Always), HttpRequest(Some(Denied(429)), If([[OverRate]]))]
    else []
  }

  function ForceLines(f: Frontend): seq<Line> {
    if f.mode == "http" && f.forceHttps then [HttpRequest(Some(ToHttps(301)), Unless([[Tls(false)]]))] else []
  }

  function DefaultLines(s: Section): seq<Line> {
    if Target(s.backends, s.frontend.defaultBackend).Some?
    then [DefaultBackend(s.backends[s.frontend.defaultBackend.value].name)] else []
  }

  function Compiled(s: Section): seq<Line> {
    var routes := Enabled(s.domains);
    RateLines(s.frontend) + (AclLines(s.acls) + (RouteAclLines(routes) + (ForceLines(s.frontend)
    + (AllRedirectLines(s.frontend, routes) + (RuleLines(s.rules) + (BackendLines(s.backends, routes)
    + DefaultLines(s)))))))
  }

  // ---- evaluating the parts

  /** What a run of lines contributes, given the names that hold. */
  datatype Effect = Effect(
    final: Option<Outcome>, redirect: Option<Outcome>, backend: Option<Outcome>, default: Option<Outcome>)

  const NOTHING := Effect(None, None, None, None)

  function EffectOf(lines: seq<Line>, names: set<string>, r: Request): Effect {
    Effect(FirstFinal(lines, names, r), FirstRedirect(lines, names, r), FirstBackend(lines, names, r), Default(lines))
  }

  function Then(a: Effect, b: Effect): Effect {
    Effect(Or(a.final, b.final), Or(a.redirect, b.redirect), Or(a.backend, b.backend), Or(a.default, b.default))
  }

  lemma {:induction false} EffectConcat(a: seq<Line>, b: seq<Line>, names: set<string>, r: Request)
    ensures EffectOf(a + b, names, r) == Then(EffectOf(a, names, r), EffectOf(b, names, r))
  {
    hide Holds;
    if a == [] {
      assert a + b == b;
    } else {
      assert (a + b)[1..] == a[1..] + b;
      EffectConcat(a[1..], b, names, r);
    }
  }

  lemma {:induction false} TrueNamesConcat(a: seq<Line>, b: seq<Line>, r: Request)
    ensures TrueNames(a + b, r) == TrueNames(a, r) + TrueNames(b, r)
  {
    hide PatternHolds;
    if a == [] {
      assert a + b == b;
    } else {
      assert (a + b)[1..] == a[1..] + b;
      TrueNamesConcat(a[1..], b, r);
    }
  }

  lemma OneLine(l: Line, names: set<string>, r: Request)
    ensures EffectOf([l], names, r) == Effect(
      if l.HttpRequest? && l.outcome.Some? && Holds(l.condition, names, r) then l.outcome else None,
      if l.RedirectLine? && Holds(l.condition, names, r) then Some(l.target) else None,
      if l.UseBackend? && Holds(l.condition, names, r) then Some(Served(l.name)) else None,
      if l.DefaultBackend? then Some(Served(l.name)) else None)
    ensures TrueNames([l], r) == if l.AclLine? && PatternHolds(l.pattern, r) then {l.name} else {}
  {
    hide Holds, PatternHolds;
    assert [l][1..] == [];
    NoLines(names, r);
  }

  lemma {:induction false} AclPart(acls: seq<Acl>, names: set<string>, r: Request)
    ensures TrueNames(AclLines(acls), r) == OperatorNames(acls, r)
    ensures EffectOf(AclLines(acls), names, r) == NOTHING
  {
    if acls != [] {
      AclPart(acls[1..], names, r);
      if acls[0].enabled {
        var l := AclLine(acls[0].name, Expression(acls[0].expression));
        OneLine(l, names, r);
        EffectConcat([l], AclLines(acls[1..]), names, r);
        TrueNamesConcat([l], AclLines(acls[1..]), r);
      } else {
        assert AclLines(acls) == AclLines(acls[1..]);
      }
    }
  }

  /** The one or two lines of a host hold exactly when its labels match. */
  lemma HostPart(name: string, d: Domain, names: set<string>, r: Request)
    ensures TrueNames(HostLines(name, d), r) == if RouteHost(d, r) then {name} else {}
    ensures EffectOf(HostLines(name, d), names, r) == NOTHING
  {
    hide Labels, SuffixOf, Bare, TrimSpace;
    var lines := HostLines(name, d);
    if HostOf(r).Some? {
      SubdomainIsLabelSuffix(HostOf(r).value, Bare(d));
    }
    OneLine(lines[0], names, r);
    if |lines| == 2 {
      OneLine(lines[1], names, r);
      assert lines == [lines[0]] + [lines[1]];
      EffectConcat([lines[0]], [lines[1]], names, r);
      TrueNamesConcat([lines[0]], [lines[1]], r);
    } else {
      assert lines == [lines[0]];
    }
  }

  lemma PathPart(d: Domain, names: set<string>, r: Request)
    ensures TrueNames(PathLines(d), r) == if RoutePath(d, r) then {PathName(d)} else {}
    ensures EffectOf(PathLines(d), names, r) == NOTHING
  {
    hide PathMatches, PathName;
    if d.pathPrefix != "" {
      OneLine(AclLine(PathName(d), PathBegins(d.pathPrefix)), names, r);
    }
  }

  lemma {:induction false} RouteAclPart(domains: seq<Domain>, names: set<string>, r: Request)
    ensures TrueNames(RouteAclLines(Enabled(domains)), r) == RouteNamesOf(domains, r)
    ensures EffectOf(RouteAclLines(Enabled(domains)), names, r) == NOTHING
  {
    hide HostLines, PathLines, HostName, PathName, RouteHost, RoutePath, EffectOf;
    if domains == [] {
      NoLines(names, r);
    } else {
      var d, rest := domains[0], RouteAclLines(Enabled(domains[1..]));
      RouteAclPart(domains[1..], names, r);
      if d.enabled {
        var own := HostLines(HostName(d), d) + PathLines(d);
        HostPart(HostName(d), d, names, r);
        PathPart(d, names, r);
        TrueNamesConcat(HostLines(HostName(d), d), PathLines(d), r);
        EffectConcat(HostLines(HostName(d), d), PathLines(d), names, r);
        TrueNamesConcat(own, rest, r);
        EffectConcat(own, rest, names, r);
        assert Enabled(domains)[1..] == Enabled(domains[1..]);
        assert RouteAclLines(Enabled(domains)) == own + rest;
      } else {
        assert Enabled(domains) == Enabled(domains[1..]);
      }
    }
  }

  lemma NoLines(names: set<string>, r: Request)
    ensures EffectOf([], names, r) == NOTHING && TrueNames([], r) == {}
  {
  }

  // ---- the names of a route stand for the route

  /** Each row has an id of its own. */
  predicate RowsApart(domains: seq<Domain>) {
    forall i, j :: 0 <= i < j < |domains| ==> domains[i].id != domains[j].id
  }

  /** The names that the lines of a route carry: a path name only when there is a path. */
  predicate Emits(d: Domain, name: string) {
    name == HostName(d) || (d.pathPrefix != "" && name == PathName(d))
  }

  /** An enabled rule that defines an ACL. */
  predicate Defines(rule: Rule) {
    rule.enabled && rule.kind.DefineAcl?
  }

  /** An ACL or an acl rule of the operator's carries a name of this route. */
  predicate Clashes(s: Section, d: Domain) {
    || (exists k :: 0 <= k < |s.acls| && s.acls[k].enabled && Emits(d, s.acls[k].name))
    || (exists k :: 0 <= k < |s.rules| && Defines(s.rules[k]) && Emits(d, s.rules[k].kind.name))
  }

  /** No ACL of the operator's carries a name of an enabled route. */
  predicate NoClash(s: Section) {
    forall i :: 0 <= i < |s.domains| && s.domains[i].enabled ==> !Clashes(s, s.domains[i])
  }

  lemma {:induction false} OperatorNamesFrom(acls: seq<Acl>, r: Request, name: string)
    requires name in OperatorNames(acls, r)
    ensures exists k :: 0 <= k < |acls| && acls[k].enabled && acls[k].name == name
  {
    if name in OperatorNames(acls[1..], r) {
      OperatorNamesFrom(acls[1..], r, name);
      var k :| 0 <= k < |acls[1..]| && acls[1..][k].enabled && acls[1..][k].name == name;
      assert acls[k + 1] == acls[1..][k];
    }
  }

  lemma {:induction false} RuleNamesFrom(rules: seq<Rule>, r: Request, name: string)
    requires name in RuleNames(rules, r)
    ensures exists k :: 0 <= k < |rules| && Defines(rules[k]) && rules[k].kind.name == name
  {
    if name in RuleNames(rules[1..], r) {
      RuleNamesFrom(rules[1..], r, name);
      var k :| 0 <= k < |rules[1..]| && Defines(rules[1..][k]) && rules[1..][k].kind.name == name;
      assert rules[k + 1] == rules[1..][k];
    }
  }

  lemma NamesOfRows(d: Domain, e: Domain)
    ensures HostName(d) == HostName(e) ==> d.id == e.id
    ensures PathName(d) == PathName(e) ==> d.id == e.id
    ensures HostName(d) != PathName(e)
  {
    hide Base, AclName;
    NamesInjective(HOST_PREFIX, d.hostname, d.id, HOST_PREFIX, e.hostname, e.id);
    NamesInjective(PATH_PREFIX, d.hostname, d.id, PATH_PREFIX, e.hostname, e.id);
    NamesInjective(HOST_PREFIX, d.hostname, d.id, PATH_PREFIX, e.hostname, e.id);
    assert HOST_PREFIX[0] != PATH_PREFIX[0];
  }

  /** Among the generated names that hold, a route finds its own and nobody else's. */
  lemma {:induction false} RouteNamesAt(domains: seq<Domain>, i: nat, r: Request)
    requires RowsApart(domains) && i < |domains| && domains[i].enabled
    ensures HostName(domains[i]) in RouteNamesOf(domains, r) <==> RouteHost(domains[i], r)
    ensures PathName(domains[i]) in RouteNamesOf(domains, r) <==> RoutePath(domains[i], r)
  {
    hide HostName, PathName, RouteHost, RoutePath;
    var d := domains[i];
    NamesOfRows(domains[0], d);
    NamesOfRows(d, domains[0]);
    if i > 0 {
      assert domains[1..][i - 1] == d;
      RouteNamesAt(domains[1..], i - 1, r);
    } else {
      StrangerNames(domains[1..], d, r);
      NamesOfRows(d, d);
    }
  }

  lemma {:induction false} StrangerNames(domains: seq<Domain>, d: Domain, r: Request)
    requires forall k :: 0 <= k < |domains| ==> domains[k].id != d.id
    ensures HostName(d) !in RouteNamesOf(domains, r) && PathName(d) !in RouteNamesOf(domains, r)
  {
    hide HostName, PathName, RouteHost, RoutePath;
    if domains != [] {
      NamesOfRows(domains[0], d);
      NamesOfRows(d, domains[0]);
      StrangerNames(domains[1..], d, r);
    }
  }

  /** The condition of a route's lines holds exactly when the route matches. */
  lemma TermMeansRoute(s: Section, i: nat, r: Request)
    requires RowsApart(s.domains) && i < |s.domains| && s.domains[i].enabled && !Clashes(s, s.domains[i])
    ensures TermHolds(RouteTerm(s.domains[i]), Meaning(s, r), r) <==> RouteMatches(s.domains[i], r)
  {
    hide HostName, PathName, RouteHost, RoutePath;
    var d := s.domains[i];
    forall name | Emits(d, name)
      ensures name in Meaning(s, r) <==> name in RouteNamesOf(s.domains, r)
    {
      if name in OperatorNames(s.acls, r) {
        OperatorNamesFrom(s.acls, r, name);
      }
      if name in RuleNames(s.rules, r) {
        RuleNamesFrom(s.rules, r, name);
      }
    }
    RouteNamesAt(s.domains, i, r);
    TermNames(d, Meaning(s, r), r);
  }

  lemma TermNames(d: Domain, names: set<string>, r: Request)
    ensures TermHolds(RouteTerm(d), names, r) <==>
      HostName(d) in names && (d.pathPrefix == "" || PathName(d) in names)
  {
    hide HostName, PathName;
    var term := RouteTerm(d);
    assert term[0] == Named(HostName(d), false);
    if d.pathPrefix != "" {
      assert term[1] == Named(PathName(d), false);
    }
  }

  // ---- the condition is exact

  /** What saving a route makes sure of, as far as its lines are concerned. */
  predicate Savable(d: Domain) {
    (d.pathPrefix == "" || HasPrefix(d.pathPrefix, "/")) && (d.matchType == "regex" || ':' !in d.hostname)
  }

  /** A request for which every test the model does not look into succeeds. */
  function Anything(host: Option<string>, path: string): Request {
    Request(host, path, false, false, (expression, value) => true, text => true)
  }

  /** A host that the route matches. */
  function MatchingHost(d: Domain): string {
    if d.matchType == "subdomain" then Bare(d)
    else if d.matchType == "wildcard" then "a." + Bare(d)
    else if d.matchType == "regex" then ""
    else ToLower(TrimSpace(d.hostname))
  }

  /** A route clashes if and only if, in the lines as emitted, its condition holds for
      some request that it does not match. */
  lemma ClashesExactly(s: Section, i: nat)
    requires RowsApart(s.domains) && i < |s.domains| && s.domains[i].enabled && Savable(s.domains[i])
    ensures Clashes(s, s.domains[i]) <==>
      exists r :: TermHolds(RouteTerm(s.domains[i]), TrueNames(Compiled(s), r), r) && !RouteMatches(s.domains[i], r)
  {
    hide Compiled, TrueNames;
    forall r: Request ensures TrueNames(Compiled(s), r) == Meaning(s, r) {
      NamesOfSection(s, r);
    }
    hide TermHolds, Meaning, RouteMatches, RouteTerm, Clashes, HostName, PathName, Savable;
    var d := s.domains[i];
    if Clashes(s, d) {
      var name := ClashingName(s, d);
      if name == HostName(d) {
        HostClashMisroutes(s, i);
      } else {
        PathClashMisroutes(s, i);
      }
    } else {
      forall r: Request
        ensures !(TermHolds(RouteTerm(d), Meaning(s, r), r) && !RouteMatches(d, r))
      {
        TermMeansRoute(s, i, r);
      }
    }
  }

  lemma ClashingName(s: Section, d: Domain) returns (name: string)
    requires Clashes(s, d)
    ensures Emits(d, name)
    ensures forall host, path :: name in Meaning(s, Anything(host, path))
  {
    hide HostName, PathName, RouteNamesOf;
    if k :| 0 <= k < |s.acls| && s.acls[k].enabled && Emits(d, s.acls[k].name) {
      name := s.acls[k].name;
      forall host, path ensures name in OperatorNames(s.acls, Anything(host, path)) {
        OperatorNamesAt(s.acls, k, Anything(host, path));
      }
    } else {
      var k :| 0 <= k < |s.rules| && Defines(s.rules[k]) && Emits(d, s.rules[k].kind.name);
      name := s.rules[k].kind.name;
      forall host, path ensures name in RuleNames(s.rules, Anything(host, path)) {
        RuleNamesAt(s.rules, k, Anything(host, path));
      }
    }
  }

  lemma {:induction false} OperatorNamesAt(acls: seq<Acl>, k: nat, r: Request)
    requires k < |acls| && acls[k].enabled && r.holds(acls[k].expression)
    ensures acls[k].name in OperatorNames(acls, r)
  {
    if k > 0 {
      assert acls[1..][k - 1] == acls[k];
      OperatorNamesAt(acls[1..], k - 1, r);
    }
  }

  lemma {:induction false} RuleNamesAt(rules: seq<Rule>, k: nat, r: Request)
    requires k < |rules| && rules[k].enabled && rules[k].kind.DefineAcl? && r.holds(rules[k].kind.expression)
    ensures rules[k].kind.name in RuleNames(rules, r)
  {
    if k > 0 {
      assert rules[1..][k - 1] == rules[k];
      RuleNamesAt(rules[1..], k - 1, r);
    }
  }

  /** A request without a host, for the path of the route. */
  lemma HostClashMisroutes(s: Section, i: nat)
    requires RowsApart(s.domains) && i < |s.domains| && s.domains[i].enabled && Savable(s.domains[i])
    requires forall host, path :: HostName(s.domains[i]) in Meaning(s, Anything(host, path))
    ensures exists r :: TermHolds(RouteTerm(s.domains[i]), Meaning(s, r), r) && !RouteMatches(s.domains[i], r)
  {
    hide HostName, PathName, PathMatches, TermHolds, RouteTerm;
    var d := s.domains[i];
    var r := Anything(None, d.pathPrefix);
    assert HostName(d) in Meaning(s, r);
    if d.pathPrefix != "" {
      WholePathMatches(d.pathPrefix);
      RouteNamesAt(s.domains, i, r);
    }
    TermNames(d, Meaning(s, r), r);
    assert !RouteMatches(d, r);
  }

  lemma WholePathMatches(prefix: string)
    requires HasPrefix(prefix, "/")
    ensures PathMatches(prefix, prefix)
  {
    assert prefix[0] == '/';
    var n := WordEnd(prefix);
    assert Fields(prefix)[0] == prefix[..n];
    assert HasPrefix(prefix, Fields(prefix)[0]);
  }

  /** A request for a host of the route, with an empty path. */
  lemma PathClashMisroutes(s: Section, i: nat)
    requires RowsApart(s.domains) && i < |s.domains| && s.domains[i].enabled && Savable(s.domains[i])
    requires s.domains[i].pathPrefix != ""
    requires forall host, path :: PathName(s.domains[i]) in Meaning(s, Anything(host, path))
    ensures exists r :: TermHolds(RouteTerm(s.domains[i]), Meaning(s, r), r) && !RouteMatches(s.domains[i], r)
  {
    hide HostName, PathName, TermHolds, RouteTerm, RouteHost, PathMatches;
    var d := s.domains[i];
    var r := Anything(Some(MatchingHost(d)), "");
    MatchingHostMatches(d, "");
    NoEmptyPath(d.pathPrefix);
    assert PathName(d) in Meaning(s, r);
    RouteNamesAt(s.domains, i, r);
    TermNames(d, Meaning(s, r), r);
    assert !RouteMatches(d, r);
  }

  lemma NoEmptyPath(prefix: string)
    ensures !PathMatches(prefix, "")
  {
    FieldsNotEmpty(prefix);
  }

  lemma {:induction false} FieldsNotEmpty(s: string)
    ensures forall k :: 0 <= k < |Fields(s)| ==> Fields(s)[k] != ""
    decreases |s|
  {
    if s != "" {
      if IsSpace(s[0]) {
        FieldsNotEmpty(s[1..]);
      } else {
        FieldsNotEmpty(s[WordEnd(s)..]);
      }
    }
  }

  /** A host that a request can carry as it is: lower case, without a port. */
  predicate PlainHost(h: string) {
    forall i :: 0 <= i < |h| ==> h[i] != ':' && LowerChar(h[i]) == h[i]
  }

  lemma PlainHostKept(h: string, path: string)
    requires PlainHost(h)
    ensures HostOf(Anything(Some(h), path)) == Some(h)
  {
    assert ToLower(h) == h;
  }

  lemma LoweredIsPlain(hostname: string)
    requires ':' !in hostname
    ensures PlainHost(ToLower(TrimSpace(hostname)))
  {
    hide TrimLeft, TrimRight;
    var left := TrimLeft(hostname, Spaces);
    var t := TrimSpace(hostname);
    assert t == TrimRight(left, Spaces);
    forall i | 0 <= i < |t| ensures t[i] in hostname {
      assert t[i] == left[i] == hostname[|hostname| - |left| + i];
    }
  }

  lemma HostKept(d: Domain, path: string)
    requires Savable(d)
    ensures HostOf(Anything(Some(MatchingHost(d)), path)) == Some(MatchingHost(d))
  {
    hide TrimSpace, HostOf;
    var host := MatchingHost(d);
    if d.matchType == "regex" {
      assert PlainHost("");
    } else {
      LoweredIsPlain(d.hostname);
      assert PlainHost(Bare(d));
      assert PlainHost("a." + Bare(d));
    }
    PlainHostKept(host, path);
  }

  lemma EndsBelowDot(bare: string)
    ensures EndsBelow("a." + bare, bare)
  {
    assert ("a." + bare)[1..] == "." + bare;
  }

  lemma MatchingHostMatches(d: Domain, path: string)
    requires Savable(d)
    ensures RouteHost(d, Anything(Some(MatchingHost(d)), path))
  {
    hide Bare, TrimSpace, Labels, SuffixOf;
    var r, host := Anything(Some(MatchingHost(d)), path), MatchingHost(d);
    HostKept(d, path);
    hide HostOf;
    SubdomainIsLabelSuffix(host, Bare(d));
    if d.matchType == "wildcard" {
      EndsBelowDot(Bare(d));
    }
  }

  lemma IfOne(term: seq<Literal>, names: set<string>, r: Request)
    ensures Holds(If([term]), names, r) <==> TermHolds(term, names, r)
    ensures Holds(If([term + [Tls(true)]]), names, r) <==> TermHolds(term, names, r) && !r.tls
  {
    assert [term][0] == term;
    var more := term + [Tls(true)];
    assert [more][0] == more;
    assert TermHolds(more, names, r) <==> TermHolds(term, names, r) && !r.tls by {
      assert more[|term|] == Tls(true);
      assert forall k :: 0 <= k < |term| ==> more[k] == term[k];
    }
  }

  // ---- the remaining parts

  lemma RedirectsOfRoute(f: Frontend, d: Domain, names: set<string>, r: Request)
    ensures TrueNames(RedirectLines(f, d), r) == {}
    ensures EffectOf(RedirectLines(f, d), names, r)
         == NOTHING.(final := if TermHolds(RouteTerm(d), names, r) then RouteRedirect(f, d, r) else None)
  {
    hide Holds, TermHolds, RouteTerm, TrimSpace;
    IfOne(RouteTerm(d), names, r);
    NoLines(names, r);
    var lines := RedirectLines(f, d);
    if |lines| == 1 {
      assert lines == [lines[0]];
      OneLine(lines[0], names, r);
    } else if |lines| == 2 {
      assert lines == [lines[0]] + [lines[1]];
      OneLine(lines[0], names, r);
      OneLine(lines[1], names, r);
      EffectConcat([lines[0]], [lines[1]], names, r);
      TrueNamesConcat([lines[0]], [lines[1]], r);
    }
  }

  lemma {:induction false} RedirectPart(s: Section, from: nat, r: Request)
    requires RowsApart(s.domains) && NoClash(s) && from <= |s.domains|
    ensures var lines := AllRedirectLines(s.frontend, Enabled(s.domains[from..]));
            && TrueNames(lines, r) == {}
            && EffectOf(lines, Meaning(s, r), r)
               == NOTHING.(final := FirstRouteRedirect(s.frontend, s.domains[from..], r))
    decreases |s.domains| - from
  {
    hide RedirectLines, RouteRedirect, EffectOf, TermHolds, RouteTerm, Meaning, Clashes;
    var names := Meaning(s, r);
    if from == |s.domains| {
      NoLines(names, r);
    } else {
      var d, tail := s.domains[from], s.domains[from + 1..];
      assert s.domains[from..][0] == d && s.domains[from..][1..] == tail;
      RedirectPart(s, from + 1, r);
      if d.enabled {
        TermMeansRoute(s, from, r);
        RedirectsOfRoute(s.frontend, d, names, r);
        assert Enabled(s.domains[from..])[1..] == Enabled(tail);
        var rest := AllRedirectLines(s.frontend, Enabled(tail));
        EffectConcat(RedirectLines(s.frontend, d), rest, names, r);
        TrueNamesConcat(RedirectLines(s.frontend, d), rest, r);
      } else {
        assert Enabled(s.domains[from..]) == Enabled(tail);
      }
    }
  }

  lemma {:induction false} BackendPart(s: Section, from: nat, r: Request)
    requires RowsApart(s.domains) && NoClash(s) && from <= |s.domains|
    ensures var lines := BackendLines(s.backends, Enabled(s.domains[from..]));
            && TrueNames(lines, r) == {}
            && EffectOf(lines, Meaning(s, r), r)
               == NOTHING.(backend := FirstRouteBackend(s, s.domains[from..], r))
    decreases |s.domains| - from
  {
    hide EffectOf, TermHolds, RouteTerm, Meaning, Clashes, Holds;
    var names := Meaning(s, r);
    if from == |s.domains| {
      NoLines(names, r);
    } else {
      var d, tail := s.domains[from], s.domains[from + 1..];
      assert s.domains[from..][0] == d && s.domains[from..][1..] == tail;
      BackendPart(s, from + 1, r);
      if d.enabled {
        TermMeansRoute(s, from, r);
        IfOne(RouteTerm(d), names, r);
        assert Enabled(s.domains[from..])[1..] == Enabled(tail);
        var rest := BackendLines(s.backends, Enabled(tail));
        if Target(s.backends, d.backendId).Some? {
          var l := UseBackend(s.backends[d.backendId.value].name, If([RouteTerm(d)]));
          OneLine(l, names, r);
          EffectConcat([l], rest, names, r);
          TrueNamesConcat([l], rest, r);
        } else {
          assert BackendLines(s.backends, Enabled(s.domains[from..])) == rest;
        }
      } else {
        assert Enabled(s.domains[from..]) == Enabled(tail);
      }
    }
  }

  lemma {:induction false} RulePart(rules: seq<Rule>, names: set<string>, r: Request)
    ensures TrueNames(RuleLines(rules), r) == RuleNames(rules, r)
    ensures EffectOf(RuleLines(rules), names, r) == Effect(
      FirstRule(rules, names, r, PickFinal), FirstRule(rules, names, r, PickRedirect),
      FirstRule(rules, names, r, PickBackend), None)
  {
    hide Holds, EffectOf;
    if rules == [] {
      NoLines(names, r);
    } else {
      RulePart(rules[1..], names, r);
      var rest := RuleLines(rules[1..]);
      if rules[0].enabled {
        OneLine(RuleLine(rules[0]), names, r);
        EffectConcat([RuleLine(rules[0])], rest, names, r);
        TrueNamesConcat([RuleLine(rules[0])], rest, r);
      } else {
        assert RuleLines(rules) == rest;
      }
    }
  }

  lemma FixedParts(s: Section, names: set<string>, r: Request)
    ensures TrueNames(RateLines(s.frontend), r) == {} && TrueNames(ForceLines(s.frontend), r) == {}
    ensures TrueNames(DefaultLines(s), r) == {}
    ensures EffectOf(RateLines(s.frontend), names, r) == NOTHING.(
      final := if s.frontend.rateLimited && s.frontend.rateLimit > 0 && r.overRate then Some(Denied(429)) else None)
    ensures EffectOf(ForceLines(s.frontend), names, r) == NOTHING.(
      final := if s.frontend.mode == "http" && s.frontend.forceHttps && !r.tls then Some(ToHttps(301)) else None)
    ensures EffectOf(DefaultLines(s), names, r) == NOTHING.(default := Target(s.backends, s.frontend.defaultBackend))
  {
    NoLines(names, r);
    RatePart(s.frontend, names, r);
    hide RateLines, EffectOf, Holds;
    var force := HttpRequest(Some(ToHttps(301)), Unless([[Tls(false)]]));
    OneLine(force, names, r);
    UnlessTls(names, r);
    if Target(s.backends, s.frontend.defaultBackend).Some? {
      OneLine(DefaultBackend(s.backends[s.frontend.defaultBackend.value].name), names, r);
    }
  }

  lemma UnlessTls(names: set<string>, r: Request)
    ensures Holds(Unless([[Tls(false)]]), names, r) <==> !r.tls
    ensures Holds(If([[OverRate]]), names, r) <==> r.overRate
  {
    assert [[Tls(false)]][0] == [Tls(false)] && [[OverRate]][0] == [OverRate];
    assert [Tls(false)][0] == Tls(false) && [OverRate][0] == OverRate;
  }

  lemma RatePart(f: Frontend, names: set<string>, r: Request)
    ensures TrueNames(RateLines(f), r) == {}
    ensures EffectOf(RateLines(f), names, r) == NOTHING.(
      final := if f.rateLimited && f.rateLimit > 0 && r.overRate then Some(Denied(429)) else None)
  {
    hide Holds, EffectOf;
    NoLines(names, r);
    UnlessTls(names, r);
    if f.rateLimited && f.rateLimit > 0 {
      var a, b := OtherLine("stick-table"), HttpRequest(None, Always);
      var c := HttpRequest(Some(Denied(429)), If([[OverRate]]));
      OneLine(a, names, r);
      OneLine(b, names, r);
      OneLine(c, names, r);
      assert RateLines(f) == [a] + ([b] + [c]);
      EffectConcat([b], [c], names, r);
      EffectConcat([a], [b] + [c], names, r);
      TrueNamesConcat([b], [c], r);
      TrueNamesConcat([a], [b] + [c], r);
    }
  }

  // ---- the whole section

  lemma {:induction false} NoNamesInRoutes(f: Frontend, backends: map<int, Backend>, routes: seq<Domain>, r: Request)
    ensures TrueNames(AllRedirectLines(f, routes), r) == {} && TrueNames(BackendLines(backends, routes), r) == {}
  {
    hide RedirectLines, Holds, RouteTerm;
    if routes != [] {
      NoNamesInRoutes(f, backends, routes[1..], r);
      RedirectsOfRoute(f, routes[0], {}, r);
      TrueNamesConcat(RedirectLines(f, routes[0]), AllRedirectLines(f, routes[1..]), r);
      var use := BackendLine(backends, routes[0]);
      TrueNamesConcat(use, BackendLines(backends, routes[1..]), r);
      NoLines({}, r);
      if use != [] {
        OneLine(use[0], {}, r);
        assert use == [use[0]];
      }
    }
  }

  /** The names that hold in the emitted lines are those the rows mean. */
  lemma NamesOfSection(s: Section, r: Request)
    ensures TrueNames(Compiled(s), r) == Meaning(s, r)
  {
    var f, routes, names := s.frontend, Enabled(s.domains), Meaning(s, r);
    FixedParts(s, names, r);
    AclPart(s.acls, names, r);
    RouteAclPart(s.domains, names, r);
    RulePart(s.rules, names, r);
    NoNamesInRoutes(f, s.backends, routes, r);
    hide RateLines, AclLines, RouteAclLines, ForceLines, AllRedirectLines, RuleLines, BackendLines, DefaultLines,
         TrueNames, Enabled, EffectOf;
    var p7 := BackendLines(s.backends, routes) + DefaultLines(s);
    var p6 := RuleLines(s.rules) + p7;
    var p5 := AllRedirectLines(f, routes) + p6;
    var p4 := ForceLines(f) + p5;
    var p3 := RouteAclLines(routes) + p4;
    var p2 := AclLines(s.acls) + p3;
    TrueNamesConcat(BackendLines(s.backends, routes), DefaultLines(s), r);
    TrueNamesConcat(RuleLines(s.rules), p7, r);
    TrueNamesConcat(AllRedirectLines(f, routes), p6, r);
    TrueNamesConcat(ForceLines(f), p5, r);
    TrueNamesConcat(RouteAclLines(routes), p4, r);
    TrueNamesConcat(AclLines(s.acls), p3, r);
    TrueNamesConcat(RateLines(f), p2, r);
  }

  /** Redirects, rules and backends each leave the rest alone. */
  lemma ThenAll(
      rate: Option<Outcome>, force: Option<Outcome>, routes: Option<Outcome>, final: Option<Outcome>,
      redirect: Option<Outcome>, chosen: Option<Outcome>, backend: Option<Outcome>, default: Option<Outcome>)
    ensures Then(NOTHING.(final := rate), Then(NOTHING, Then(NOTHING, Then(NOTHING.(final := force),
              Then(NOTHING.(final := routes), Then(Effect(final, redirect, chosen, None),
              Then(NOTHING.(backend := backend), NOTHING.(default := default))))))))
         == Effect(Or(rate, Or(force, Or(routes, final))), redirect, Or(chosen, backend), default)
  {
  }

  lemma EffectOfSection(s: Section, r: Request)
    requires RowsApart(s.domains) && NoClash(s)
    ensures var f, names := s.frontend, Meaning(s, r);
            EffectOf(Compiled(s), names, r) == Effect(
              Or(if f.rateLimited && f.rateLimit > 0 && r.overRate then Some(Denied(429)) else None,
                 Or(if f.mode == "http" && f.forceHttps && !r.tls then Some(ToHttps(301)) else None,
                    Or(FirstRouteRedirect(f, s.domains, r), FirstRule(s.rules, names, r, PickFinal)))),
              FirstRule(s.rules, names, r, PickRedirect),
              Or(FirstRule(s.rules, names, r, PickBackend), FirstRouteBackend(s, s.domains, r)),
              Target(s.backends, f.defaultBackend))
  {
    var f, routes, names := s.frontend, Enabled(s.domains), Meaning(s, r);
    assert s.domains[0..] == s.domains;
    FixedParts(s, names, r);
    AclPart(s.acls, names, r);
    RouteAclPart(s.domains, names, r);
    RedirectPart(s, 0, r);
    RulePart(s.rules, names, r);
    BackendPart(s, 0, r);
    hide RateLines, AclLines, RouteAclLines, ForceLines, AllRedirectLines, RuleLines, BackendLines, DefaultLines,
         TrueNames, Enabled, EffectOf, Meaning, FirstRule, FirstRouteRedirect, FirstRouteBackend, Target, NoClash,
         Then, Or;
    ThenAll(if f.rateLimited && f.rateLimit > 0 && r.overRate then Some(Denied(429)) else None,
            if f.mode == "http" && f.forceHttps && !r.tls then Some(ToHttps(301)) else None,
            FirstRouteRedirect(f, s.domains, r),
            FirstRule(s.rules, names, r, PickFinal), FirstRule(s.rules, names, r, PickRedirect),
            FirstRule(s.rules, names, r, PickBackend), FirstRouteBackend(s, s.domains, r),
            Target(s.backends, f.defaultBackend));
    var p7 := BackendLines(s.backends, routes) + DefaultLines(s);
    var p6 := RuleLines(s.rules) + p7;
    var p5 := AllRedirectLines(f, routes) + p6;
    var p4 := ForceLines(f) + p5;
    var p3 := RouteAclLines(routes) + p4;
    var p2 := AclLines(s.acls) + p3;
    EffectConcat(BackendLines(s.backends, routes), DefaultLines(s), names, r);
    EffectConcat(RuleLines(s.rules), p7, names, r);
    EffectConcat(AllRedirectLines(f, routes), p6, names, r);
    EffectConcat(ForceLines(f), p5, names, r);
    EffectConcat(RouteAclLines(routes), p4, names, r);
    EffectConcat(AclLines(s.acls), p3, names, r);
    EffectConcat(RateLines(f), p2, names, r);
  }

  /** For every frontend, routes, rules, backends and request, evaluating the emitted
      lines gives what the walk over the rows gives, when rows have their own ids and
      no operator ACL carries a generated name. */
  lemma CompilationPreservesMeaning(s: Section, r: Request)
    requires RowsApart(s.domains) && NoClash(s)
    ensures Evaluate(s.frontend.mode, Compiled(s), r) == Walk(s, r)
  {
    NamesOfSection(s, r);
    EffectOfSection(s, r);
    hide Compiled, Meaning, FirstRule, FirstRouteRedirect, FirstRouteBackend, Target, FirstFinal, FirstRedirect,
         FirstBackend, Default, TrueNames, NoClash;
  }

  /** A section with one route to a live backend and one operator ACL. */
  function OneRoute(d: Domain, acl: Acl): Section {
    Section(Frontend("http", false, false, 0, None), [acl], [], [d], map[1 := Backend("web", true)])
  }

  /** One operator ACL that carries a generated name is enough to send a request to a
      route that it does not match. */
  lemma ClashMisroutes(d: Domain, acl: Acl, r: Request)
    requires d.enabled && d.pathPrefix == "" && d.redirectTo == "" && !d.forceHttps && d.backendId == Some(1)
    requires acl.enabled && acl.name == HostName(d) && r.holds(acl.expression)
    requires !RouteHost(d, r)
    ensures Walk(OneRoute(d, acl), r) == Unserved
    ensures Evaluate("http", Compiled(OneRoute(d, acl)), r) == Served("web")
  {
    ClashWalk(d, acl, r);
    ClashCompiled(d, acl);
    ClashEvaluates(d, acl, r);
  }

  lemma ClashWalk(d: Domain, acl: Acl, r: Request)
    requires !RouteHost(d, r)
    ensures Walk(OneRoute(d, acl), r) == Unserved
  {
    hide Meaning, RouteHost;
    var s, names := OneRoute(d, acl), Meaning(OneRoute(d, acl), r);
    assert !RouteMatches(d, r);
    assert [d][1..] == [];
    assert FirstRouteRedirect(s.frontend, [], r) == None && FirstRouteBackend(s, [], r) == None;
    assert FirstRouteRedirect(s.frontend, [d], r) == None && FirstRouteBackend(s, [d], r) == None;
    assert FirstRule([], names, r, PickFinal) == FirstRule([], names, r, PickRedirect)
        == FirstRule([], names, r, PickBackend) == None;
  }

  function ClashLines(d: Domain, acl: Acl): seq<Line> {
    [AclLine(acl.name, Expression(acl.expression))]
    + (HostLines(HostName(d), d) + [UseBackend("web", If([RouteTerm(d)]))])
  }

  lemma ClashEvaluates(d: Domain, acl: Acl, r: Request)
    requires d.pathPrefix == "" && acl.name == HostName(d) && r.holds(acl.expression)
    ensures Evaluate("http", ClashLines(d, acl), r) == Served("web")
  {
    hide HostLines, HostName, Holds, TrueNames, PatternHolds;
    var own := AclLine(acl.name, Expression(acl.expression));
    var use := UseBackend("web", If([RouteTerm(d)]));
    var host := HostLines(HostName(d), d);
    var names := TrueNames(ClashLines(d, acl), r);
    TrueNamesConcat([own], host + [use], r);
    OneLine(own, names, r);
    OneLine(use, names, r);
    ExpressionHolds(acl.expression, r);
    IfOne(RouteTerm(d), names, r);
    HostPart(HostName(d), d, names, r);
    EffectConcat(host, [use], names, r);
    EffectConcat([own], host + [use], names, r);
    assert TermHolds(RouteTerm(d), names, r);
  }

  lemma ExpressionHolds(text: string, r: Request)
    ensures PatternHolds(Expression(text), r) == r.holds(text)
  {
  }

  lemma ClashCompiled(d: Domain, acl: Acl)
    requires d.enabled && d.pathPrefix == "" && d.redirectTo == "" && !d.forceHttps && d.backendId == Some(1)
    requires acl.enabled
    ensures Compiled(OneRoute(d, acl)) == ClashLines(d, acl)
  {
    hide HostLines, HostName, RouteTerm, TrimSpace;
    var s := OneRoute(d, acl);
    TrimBlank();
    assert [d][1..] == [] && [acl][1..] == [];
    assert Enabled([d]) == [d];
    assert RouteAclLines([d]) == HostLines(HostName(d), d);
    assert AllRedirectLines(s.frontend, [d]) == [];
    assert RuleLines([]) == [];
    assert AclLines([acl]) == [AclLine(acl.name, Expression(acl.expression))];
    assert BackendLines(s.backends, [d]) == [UseBackend("web", If([RouteTerm(d)]))];
    assert RateLines(s.frontend) == [] && ForceLines(s.frontend) == [] && DefaultLines(s) == [];
    hide *;
    CompiledIs(s);
    OnlyThree(AclLines([acl]), RouteAclLines([d]), BackendLines(s.backends, [d]));
    ClashLinesAre(d, acl);
  }

  lemma CompiledIs(s: Section)
    ensures var routes := Enabled(s.domains);
            Compiled(s) == RateLines(s.frontend) + (AclLines(s.acls) + (RouteAclLines(routes) + (ForceLines(s.frontend)
              + (AllRedirectLines(s.frontend, routes) + (RuleLines(s.rules) + (BackendLines(s.backends, routes)
              + DefaultLines(s)))))))
  {
  }

  lemma ClashLinesAre(d: Domain, acl: Acl)
    ensures ClashLines(d, acl) == [AclLine(acl.name, Expression(acl.expression))]
      + (HostLines(HostName(d), d) + [UseBackend("web", If([RouteTerm(d)]))])
  {
  }

  lemma OnlyThree<T>(a: seq<T>, b: seq<T>, c: seq<T>)
    ensures [] + (a + (b + ([] + ([] + ([] + (c + [])))))) == a + (b + c)
  {
  }

  lemma TrimBlank()
    ensures TrimSpace("") == ""
  {
  }

  /** A path prefix is matched as it is written if and only if it is a single word:
      white space in it makes several patterns of it. */
  lemma PathPrefixIsOnePattern(prefix: string)
    requires HasPrefix(prefix, "/")
    ensures (forall path :: PathMatches(prefix, path) <==> HasPrefix(path, prefix)) <==> IsWord(prefix)
  {
    assert prefix[0] == '/';
    if IsWord(prefix) {
      FieldsWord(prefix, "");
      assert prefix + "" == prefix && Fields("") == [];
      assert Fields(prefix) == [prefix];
      forall path ensures PathMatches(prefix, path) <==> HasPrefix(path, prefix) {
        assert HasPrefix(path, prefix) ==> HasPrefix(path, Fields(prefix)[0]);
      }
    } else {
      var n := WordEnd(prefix);
      var word := prefix[..n];
      assert Fields(prefix)[0] == word;
      assert HasPrefix(word, word);
      assert PathMatches(prefix, word) && !HasPrefix(word, prefix);
    }
  }

  // ---- the lines that decide nothing

  predicate Limits(f: Frontend) {
    f.rateLimited && f.rateLimit > 0
  }

  predicate Idle(l: Line) {
    l.OtherLine? || (l.HttpRequest? && l.outcome == None)
  }

  /** The lines without which every request would be answered the same. */
  function Undecided(lines: seq<Line>): seq<Line> {
    if lines == [] then [] else (if Idle(lines[0]) then [lines[0]] else []) + Undecided(lines[1..])
  }

  /** What the enabled rules without part in routing become. */
  function InertLines(rules: seq<Rule>): seq<Line> {
    if rules == [] then []
    else (if rules[0].enabled && rules[0].kind.Inert? then [OtherLine(rules[0].kind.text)] else [])
         + InertLines(rules[1..])
  }

  lemma {:induction false} UndecidedConcat(a: seq<Line>, b: seq<Line>)
    ensures Undecided(a + b) == Undecided(a) + Undecided(b)
  {
    hide Idle;
    if a == [] {
      assert a + b == b;
    } else {
      var all, rest := a + b, a[1..];
      assert all[0] == a[0] && all[1..] == rest + b;
      UndecidedConcat(rest, b);
      var here := if Idle(a[0]) then [a[0]] else [];
      assert Undecided(all) == here + Undecided(rest + b);
      assert Undecided(a) == here + Undecided(rest);
    }
  }

  lemma {:induction false} AllDecide(lines: seq<Line>)
    requires forall k :: 0 <= k < |lines| ==> !Idle(lines[k])
    ensures Undecided(lines) == []
  {
    if lines != [] {
      AllDecide(lines[1..]);
    }
  }

  lemma {:induction false} AclsDecide(acls: seq<Acl>)
    ensures Undecided(AclLines(acls)) == []
  {
    if acls != [] {
      AclsDecide(acls[1..]);
      hide Undecided;
      var front := if acls[0].enabled then [AclLine(acls[0].name, Expression(acls[0].expression))] else [];
      AllDecide(front);
      UndecidedConcat(front, AclLines(acls[1..]));
    }
  }

  lemma {:induction false} RouteAclsDecide(domains: seq<Domain>)
    ensures Undecided(RouteAclLines(domains)) == []
  {
    if domains == [] {
      AllDecide([]);
    } else {
      RouteAclsDecide(domains[1..]);
      var hosts, paths := HostLines(HostName(domains[0]), domains[0]), PathLines(domains[0]);
      RouteDecides(HostName(domains[0]), domains[0]);
      hide Idle, Undecided, HostLines, PathLines;
      AllDecide(hosts);
      AllDecide(paths);
      UndecidedConcat(hosts, paths);
      UndecidedConcat(hosts + paths, RouteAclLines(domains[1..]));
    }
  }

  lemma RouteDecides(name: string, d: Domain)
    ensures forall k :: 0 <= k < |HostLines(name, d)| ==> !Idle(HostLines(name, d)[k])
    ensures forall k :: 0 <= k < |PathLines(d)| ==> !Idle(PathLines(d)[k])
  {
    hide Bare, TrimSpace, PathName;
  }

  lemma {:induction false} RedirectsDecide(f: Frontend, domains: seq<Domain>)
    ensures Undecided(AllRedirectLines(f, domains)) == []
  {
    if domains == [] {
      AllDecide([]);
    } else {
      RedirectsDecide(f, domains[1..]);
      RedirectDecides(f, domains[0]);
      hide Undecided, RedirectLines;
      AllDecide(RedirectLines(f, domains[0]));
      UndecidedConcat(RedirectLines(f, domains[0]), AllRedirectLines(f, domains[1..]));
    }
  }

  lemma RedirectDecides(f: Frontend, d: Domain)
    ensures forall k :: 0 <= k < |RedirectLines(f, d)| ==> !Idle(RedirectLines(f, d)[k])
  {
    hide RouteTerm, TrimSpace;
  }

  lemma {:induction false} RulesUndecided(rules: seq<Rule>)
    ensures Undecided(RuleLines(rules)) == InertLines(rules)
  {
    if rules != [] {
      RulesUndecided(rules[1..]);
      var front := if rules[0].enabled then [RuleLine(rules[0])] else [];
      UndecidedConcat(front, RuleLines(rules[1..]));
      assert rules[0].enabled ==> front[1..] == [] && front[0] == RuleLine(rules[0]);
    }
  }

  lemma {:induction false} BackendsDecide(backends: map<int, Backend>, domains: seq<Domain>)
    ensures Undecided(BackendLines(backends, domains)) == []
  {
    if domains == [] {
      AllDecide([]);
    } else {
      BackendsDecide(backends, domains[1..]);
      hide Undecided, RouteTerm, Target;
      AllDecide(BackendLine(backends, domains[0]));
      UndecidedConcat(BackendLine(backends, domains[0]), BackendLines(backends, domains[1..]));
    }
  }

  /** Beside the operator's own, the only lines that decide nothing are those that keep
      the table of request rates, and these are written exactly when the frontend limits
      them. */
  lemma UndecidedExactly(s: Section)
    ensures Undecided(Compiled(s)) ==
      (if Limits(s.frontend) then [OtherLine("stick-table"), HttpRequest(None, Always)] else []) + InertLines(s.rules)
  {
    var f, routes := s.frontend, Enabled(s.domains);
    RateUndecided(f);
    AclsDecide(s.acls);
    RouteAclsDecide(routes);
    AllDecide(ForceLines(f));
    RedirectsDecide(f, routes);
    RulesUndecided(s.rules);
    BackendsDecide(s.backends, routes);
    AllDecide(DefaultLines(s));
    hide Idle, Undecided, InertLines, RateLines, AclLines, RouteAclLines, ForceLines, AllRedirectLines, RuleLines,
         BackendLines, DefaultLines, Enabled, Limits;
    UndecidedParts(RateLines(f), AclLines(s.acls), RouteAclLines(routes), ForceLines(f), AllRedirectLines(f, routes),
                   RuleLines(s.rules), BackendLines(s.backends, routes), DefaultLines(s));
  }

  lemma UndecidedParts(
    a: seq<Line>, b: seq<Line>, c: seq<Line>, d: seq<Line>, e: seq<Line>, f: seq<Line>, g: seq<Line>, h: seq<Line>)
    requires Undecided(b) == [] && Undecided(c) == [] && Undecided(d) == [] && Undecided(e) == []
    requires Undecided(g) == [] && Undecided(h) == []
    ensures Undecided(a + (b + (c + (d + (e + (f + (g + h))))))) == Undecided(a) + Undecided(f)
  {
    hide Undecided;
    UndecidedConcat(g, h);
    UndecidedConcat(f, g + h);
    UndecidedConcat(e, f + (g + h));
    UndecidedConcat(d, e + (f + (g + h)));
    UndecidedConcat(c, d + (e + (f + (g + h))));
    UndecidedConcat(b, c + (d + (e + (f + (g + h)))));
    UndecidedConcat(a, b + (c + (d + (e + (f + (g + h))))));
  }

  /** The rate limit leads the section: the table, the line that counts the request,
      and the line that refuses it. */
  lemma LimitLeads(s: Section)
    requires Limits(s.frontend)
    ensures |Compiled(s)| >= 3
    ensures Compiled(s)[0] == OtherLine("stick-table")
    ensures Compiled(s)[1] == HttpRequest(None, Always)
    ensures Compiled(s)[2] == HttpRequest(Some(Denied(429)), If([[OverRate]]))
  {
    hide Enabled, AclLines, RouteAclLines, ForceLines, AllRedirectLines, RuleLines, BackendLines, DefaultLines;
    LeadKept(RateLines(s.frontend), Compiled(s)[|RateLines(s.frontend)|..]);
  }

  lemma LeadKept(a: seq<Line>, b: seq<Line>)
    ensures forall k :: 0 <= k < |a| ==> (a + b)[k] == a[k]
  {
  }

  lemma RateUndecided(f: Frontend)
    ensures Undecided(RateLines(f)) ==
      if Limits(f) then [OtherLine("stick-table"), HttpRequest(None, Always)] else []
  {
    if Limits(f) {
      var a, b, c := OtherLine("stick-table"), HttpRequest(None, Always), RateLines(f)[2];
      assert RateLines(f) == [a] + ([b] + [c]);
      UndecidedConcat([a], [b] + [c]);
      UndecidedConcat([b], [c]);
      assert [a][1..] == [] && [b][1..] == [] && [c][1..] == [];
    }
  }

  // ---- the renderer's loops

  datatype Warning =
    | GoneBackend(hostname: string)
    | DisabledBackend(hostname: string, backend: string)
    | DisabledDefault(backend: string)
    | NothingToServe

  function RouteWarning(backends: map<int, Backend>, d: Domain): seq<Warning> {
    if d.backendId == None then []
    else if d.backendId.value !in backends then [GoneBackend(d.hostname)]
    else if !backends[d.backendId.value].enabled then [DisabledBackend(d.hostname, backends[d.backendId.value].name)]
    else []
  }

  function RouteWarnings(backends: map<int, Backend>, routes: seq<Domain>): seq<Warning> {
    if routes == [] then [] else RouteWarning(backends, routes[0]) + RouteWarnings(backends, routes[1..])
  }

  function DefaultWarnings(s: Section): seq<Warning> {
    if s.frontend.defaultBackend == None then (if Enabled(s.domains) == [] then [NothingToServe] else [])
    else if s.frontend.defaultBackend.value in s.backends && !s.backends[s.frontend.defaultBackend.value].enabled
    then [DisabledDefault(s.backends[s.frontend.defaultBackend.value].name)]
    else []
  }

  lemma {:induction false} NoneEnabled(domains: seq<Domain>)
    ensures Enabled(domains) == [] <==> forall d :: d in domains ==> !d.enabled
  {
    if domains != [] {
      NoneEnabled(domains[1..]);
      assert domains[0] in domains;
      assert forall d :: d in domains <==> d == domains[0] || d in domains[1..];
    }
  }

  lemma {:induction false} RouteWarningsOnly(backends: map<int, Backend>, routes: seq<Domain>)
    ensures forall w :: w in RouteWarnings(backends, routes) ==> w.GoneBackend? || w.DisabledBackend?
  {
    if routes != [] {
      RouteWarningsOnly(backends, routes[1..]);
    }
  }

  /** There is no default backend and no route to take its place. */
  predicate Serves(s: Section) {
    s.frontend.defaultBackend.Some? || exists d :: d in s.domains && d.enabled
  }

  /** The default backend is still there under this name, but disabled. */
  predicate DefaultIsOff(s: Section, name: string) {
    && s.frontend.defaultBackend.Some? && s.frontend.defaultBackend.value in s.backends
    && s.backends[s.frontend.defaultBackend.value] == Backend(name, false)
  }

  /** The warnings about the default backend are given exactly when they are due. */
  lemma DefaultWarnedExactly(s: Section)
    ensures var warnings := RouteWarnings(s.backends, Enabled(s.domains)) + DefaultWarnings(s);
            && (NothingToServe in warnings <==> !Serves(s))
            && forall name :: DisabledDefault(name) in warnings <==> DefaultIsOff(s, name)
  {
    NoneEnabled(s.domains);
    RouteWarningsOnly(s.backends, Enabled(s.domains));
    hide RouteWarnings, Enabled;
  }

  /** The route's backend still exists and is enabled. */
  predicate Live(backends: map<int, Backend>, d: Domain) {
    Target(backends, d.backendId).Some?
  }

  function LiveRoutes(backends: map<int, Backend>, routes: seq<Domain>): seq<Domain> {
    if routes == [] then []
    else (if Live(backends, routes[0]) then [routes[0]] else []) + LiveRoutes(backends, routes[1..])
  }

  function StrandedRoutes(backends: map<int, Backend>, routes: seq<Domain>): seq<Domain> {
    if routes == [] then []
    else (if routes[0].backendId.Some? && !Live(backends, routes[0]) then [routes[0]] else [])
         + StrandedRoutes(backends, routes[1..])
  }

  predicate Uses(backends: map<int, Backend>, l: Line, d: Domain) {
    Live(backends, d) && l == UseBackend(backends[d.backendId.value].name, If([RouteTerm(d)]))
  }

  predicate WarnsOf(backends: map<int, Backend>, w: Warning, d: Domain) {
    && d.backendId.Some?
    && w == if d.backendId.value !in backends then GoneBackend(d.hostname)
            else DisabledBackend(d.hostname, backends[d.backendId.value].name)
  }

  /** A route that names a backend gets its line if the backend exists and is enabled,
      and its warning otherwise, never both; both lists follow the order of the routes. */
  lemma RoutedOrWarned(backends: map<int, Backend>, routes: seq<Domain>)
    ensures var lines, live := BackendLines(backends, routes), LiveRoutes(backends, routes);
            |lines| == |live| && forall k :: 0 <= k < |live| ==> Uses(backends, lines[k], live[k])
    ensures var warnings, stranded := RouteWarnings(backends, routes), StrandedRoutes(backends, routes);
            |warnings| == |stranded| && forall k :: 0 <= k < |stranded| ==> WarnsOf(backends, warnings[k], stranded[k])
    ensures forall d :: d in routes && d.backendId.Some? ==>
      ((d in LiveRoutes(backends, routes)) != (d in StrandedRoutes(backends, routes)))
    ensures forall d :: d in LiveRoutes(backends, routes) || d in StrandedRoutes(backends, routes) ==> d in routes
  {
    hide *;
    LinesFollowLive(backends, routes);
    WarningsFollowStranded(backends, routes);
    LiveIsLive(backends, routes);
    Parted(backends, routes);
  }

  lemma {:induction false} LinesFollowLive(backends: map<int, Backend>, routes: seq<Domain>)
    ensures var lines, live := BackendLines(backends, routes), LiveRoutes(backends, routes);
            |lines| == |live| && forall k :: 0 <= k < |live| ==> Uses(backends, lines[k], live[k])
  {
    hide Uses, Live, BackendLine;
    if routes != [] {
      var rest := routes[1..];
      LinesFollowLive(backends, rest);
      OneUse(backends, routes[0]);
      var own, first := BackendLine(backends, routes[0]), if Live(backends, routes[0]) then [routes[0]] else [];
      assert BackendLines(backends, routes) == own + BackendLines(backends, rest);
      assert LiveRoutes(backends, routes) == first + LiveRoutes(backends, rest);
    }
  }

  lemma OneUse(backends: map<int, Backend>, d: Domain)
    ensures if Live(backends, d) then |BackendLine(backends, d)| == 1 && Uses(backends, BackendLine(backends, d)[0], d)
            else BackendLine(backends, d) == []
  {
    hide RouteTerm;
  }

  lemma {:induction false} WarningsFollowStranded(backends: map<int, Backend>, routes: seq<Domain>)
    ensures var warnings, stranded := RouteWarnings(backends, routes), StrandedRoutes(backends, routes);
            |warnings| == |stranded| && forall k :: 0 <= k < |stranded| ==> WarnsOf(backends, warnings[k], stranded[k])
  {
    if routes != [] {
      WarningsFollowStranded(backends, routes[1..]);
    }
  }

  lemma {:induction false} Parted(backends: map<int, Backend>, routes: seq<Domain>)
    ensures forall d :: d in LiveRoutes(backends, routes) ==> d in routes
    ensures forall d :: d in StrandedRoutes(backends, routes) ==> d in routes
    ensures forall d :: d in routes && d.backendId.Some? ==>
      d in LiveRoutes(backends, routes) || d in StrandedRoutes(backends, routes)
  {
    hide Live;
    if routes != [] {
      Parted(backends, routes[1..]);
      assert routes == [routes[0]] + routes[1..];
    }
  }

  lemma {:induction false} LiveIsLive(backends: map<int, Backend>, routes: seq<Domain>)
    ensures forall d :: d in LiveRoutes(backends, routes) ==> Live(backends, d)
    ensures forall d :: d in StrandedRoutes(backends, routes) ==> !Live(backends, d)
  {
    if routes != [] {
      LiveIsLive(backends, routes[1..]);
    }
  }

  lemma {:induction false} EnabledSnoc(domains: seq<Domain>, d: Domain)
    ensures Enabled(domains + [d]) == if d.enabled then Enabled(domains) + [d] else Enabled(domains)
  {
    if domains == [] {
      assert domains + [d] == [d] && [d][1..] == [];
    } else {
      assert (domains + [d])[1..] == domains[1..] + [d];
      EnabledSnoc(domains[1..], d);
    }
  }

  lemma {:induction false} RouteAclSnoc(routes: seq<Domain>, d: Domain)
    ensures RouteAclLines(routes + [d]) == RouteAclLines(routes) + (HostLines(HostName(d), d) + PathLines(d))
  {
    hide HostLines, PathLines, HostName;
    if routes == [] {
      assert routes + [d] == [d] && [d][1..] == [];
    } else {
      assert (routes + [d])[1..] == routes[1..] + [d];
      RouteAclSnoc(routes[1..], d);
    }
  }

  lemma {:induction false} RedirectSnoc(f: Frontend, routes: seq<Domain>, d: Domain)
    ensures AllRedirectLines(f, routes + [d]) == AllRedirectLines(f, routes) + RedirectLines(f, d)
  {
    hide RedirectLines;
    if routes == [] {
      assert routes + [d] == [d] && [d][1..] == [];
    } else {
      assert (routes + [d])[1..] == routes[1..] + [d];
      RedirectSnoc(f, routes[1..], d);
    }
  }

  lemma {:induction false} AclSnoc(acls: seq<Acl>, a: Acl)
    ensures AclLines(acls + [a]) ==
      AclLines(acls) + (if a.enabled then [AclLine(a.name, Expression(a.expression))] else [])
  {
    var all := acls + [a];
    if acls == [] {
      assert all == [a] && [a][1..] == [];
    } else {
      var rest := acls[1..];
      assert all[0] == acls[0] && all[1..] == rest + [a];
      AclSnoc(rest, a);
      var here := if acls[0].enabled then [AclLine(acls[0].name, Expression(acls[0].expression))] else [];
      assert AclLines(all) == here + AclLines(rest + [a]);
      assert AclLines(acls) == here + AclLines(rest);
    }
  }

  lemma {:induction false} RuleSnoc(rules: seq<Rule>, rule: Rule)
    ensures RuleLines(rules + [rule]) == RuleLines(rules) + (if rule.enabled then [RuleLine(rule)] else [])
  {
    hide RuleLine;
    var all := rules + [rule];
    if rules == [] {
      assert all == [rule] && [rule][1..] == [];
    } else {
      var rest := rules[1..];
      assert all[0] == rules[0] && all[1..] == rest + [rule];
      RuleSnoc(rest, rule);
      var here := if rules[0].enabled then [RuleLine(rules[0])] else [];
      assert RuleLines(all) == here + RuleLines(rest + [rule]);
      assert RuleLines(rules) == here + RuleLines(rest);
    }
  }

  lemma {:induction false} BackendSnoc(backends: map<int, Backend>, routes: seq<Domain>, d: Domain)
    ensures BackendLines(backends, routes + [d]) == BackendLines(backends, routes) + BackendLine(backends, d)
    ensures RouteWarnings(backends, routes + [d]) == RouteWarnings(backends, routes) + RouteWarning(backends, d)
  {
    hide BackendLine, RouteWarning;
    if routes == [] {
      assert routes + [d] == [d] && [d][1..] == [];
    } else {
      assert (routes + [d])[1..] == routes[1..] + [d];
      BackendSnoc(backends, routes[1..], d);
    }
  }

  /** A route with the ACL names it was given. */
  datatype Route = Route(domain: Domain, host: string, path: string)

  function DomainsOf(routes: seq<Route>): (r: seq<Domain>)
    ensures |r| == |routes|
  {
    seq(|routes|, k requires 0 <= k < |routes| => routes[k].domain)
  }

  /** The names were derived from the rows, and the path name only when there is a path. */
  predicate WellNamed(routes: seq<Route>) {
    forall k :: 0 <= k < |routes| ==>
      && routes[k].host == HostName(routes[k].domain)
      && routes[k].path == (if routes[k].domain.pathPrefix == "" then "" else PathName(routes[k].domain))
  }

  function ConditionOf(route: Route): seq<Literal> {
    [Named(route.host, false)] + (if route.path == "" then [] else [Named(route.path, false)])
  }

  lemma ConditionIsTerm(routes: seq<Route>, k: nat)
    requires WellNamed(routes) && k < |routes|
    ensures ConditionOf(routes[k]) == RouteTerm(routes[k].domain)
  {
    NameIsWord(PATH_PREFIX, routes[k].domain.hostname, routes[k].domain.id);
    hide HostName, AclName;
    assert PathName(routes[k].domain) != "";
  }

  method RenderFrontend(s: Section) returns (out: seq<Line>, warnings: seq<Warning>)
    ensures out == Compiled(s)
    ensures warnings == RouteWarnings(s.backends, Enabled(s.domains)) + DefaultWarnings(s)
    ensures NothingToServe in warnings <==> !Serves(s)
    ensures forall name :: DisabledDefault(name) in warnings <==> DefaultIsOff(s, name)
    ensures Undecided(out) == (if Limits(s.frontend) then [OtherLine("stick-table"), HttpRequest(None, Always)] else [])
                           + InertLines(s.rules)
  {
    DefaultWarnedExactly(s);
    UndecidedExactly(s);
    hide Serves, DefaultIsOff, Undecided, InertLines;
    hide AclLines, Enabled, RouteAclLines, AllRedirectLines, RuleLines, BackendLines, RouteWarnings,
         HostLines, PathLines, RedirectLines, RuleLine, BackendLine, RouteWarning, HostName, PathName, RouteTerm;
    var f := s.frontend;
    out, warnings := RateLines(f), [];
    var acls := RenderAcls(s.acls);
    var routes, hosts := RenderRoutes(s.domains);
    var redirects := RenderRedirects(f, routes);
    var rules := RenderRules(s.rules);
    var uses, skipped := RenderBackends(s.backends, routes);
    out := out + acls + hosts + ForceLines(f) + redirects + rules + uses;
    warnings := warnings + skipped;
    if f.defaultBackend.Some? {
      if f.defaultBackend.value in s.backends {
        var bk := s.backends[f.defaultBackend.value];
        if bk.enabled {
          out := out + [DefaultBackend(bk.name)];
        } else {
          warnings := warnings + [DisabledDefault(bk.name)];
        }
      }
    } else if |routes| == 0 {
      warnings := warnings + [NothingToServe];
    }
    Reassociate(RateLines(f), acls, hosts, ForceLines(f), redirects, rules, uses, DefaultLines(s));
  }

  lemma Reassociate<T>(a: seq<T>, b: seq<T>, c: seq<T>, d: seq<T>, e: seq<T>, f: seq<T>, g: seq<T>, h: seq<T>)
    ensures a + b + c + d + e + f + g + h == a + (b + (c + (d + (e + (f + (g + h))))))
    ensures h == [] ==> a + b + c + d + e + f + g + h == a + b + c + d + e + f + g
  {
  }

  method RenderAcls(acls: seq<Acl>) returns (out: seq<Line>)
    ensures out == AclLines(acls)
  {
    out := [];
    for i := 0 to |acls|
      invariant out == AclLines(acls[..i])
    {
      assert acls[..i + 1] == acls[..i] + [acls[i]];
      AclSnoc(acls[..i], acls[i]);
      if acls[i].enabled {
        out := out + [AclLine(acls[i].name, Expression(acls[i].expression))];
      }
    }
    assert acls[..|acls|] == acls;
  }

  method RenderRoutes(domains: seq<Domain>) returns (routes: seq<Route>, out: seq<Line>)
    ensures DomainsOf(routes) == Enabled(domains) && WellNamed(routes)
    ensures out == RouteAclLines(Enabled(domains))
  {
    hide HostLines, HostName, PathName, Enabled, RouteAclLines;
    routes, out := [], [];
    NoRoutes();
    for i := 0 to |domains|
      invariant DomainsOf(routes) == Enabled(domains[..i]) && WellNamed(routes)
      invariant out == RouteAclLines(Enabled(domains[..i]))
    {
      var d := domains[i];
      assert domains[..i + 1] == domains[..i] + [d];
      EnabledSnoc(domains[..i], d);
      if !d.enabled {
        continue;
      }
      RouteAclSnoc(Enabled(domains[..i]), d);
      var lines := HostLines(HostName(d), d);
      var path := "";
      if d.pathPrefix != "" {
        path := PathName(d);
        lines := lines + [AclLine(path, PathBegins(d.pathPrefix))];
      }
      out := out + lines;
      routes := routes + [Route(d, HostName(d), path)];
    }
    assert domains[..|domains|] == domains;
  }

  lemma NoRoutes()
    ensures Enabled([]) == [] && RouteAclLines([]) == []
  {
  }

  method RenderRedirects(f: Frontend, routes: seq<Route>) returns (out: seq<Line>)
    requires WellNamed(routes)
    ensures out == AllRedirectLines(f, DomainsOf(routes))
  {
    hide RouteTerm, ConditionOf, TrimSpace, WellNamed;
    out := [];
    for i := 0 to |routes|
      invariant out == AllRedirectLines(f, DomainsOf(routes[..i]))
    {
      var d, cond := routes[i].domain, ConditionOf(routes[i]);
      ConditionIsTerm(routes, i);
      assert DomainsOf(routes[..i + 1]) == DomainsOf(routes[..i]) + [d];
      RedirectSnoc(f, DomainsOf(routes[..i]), d);
      var lines: seq<Line> := [];
      if d.forceHttps && !f.forceHttps && f.mode == "http" {
        lines := [HttpRequest(Some(ToHttps(301)), If([cond + [Tls(true)]]))];
      }
      var to := TrimSpace(d.redirectTo);
      if to != "" {
        var code := d.redirectCode;
        if code == 0 {
          code := 301;
        }
        lines := lines + [HttpRequest(Some(Redirected(to, code)), If([cond]))];
      }
      out := out + lines;
    }
    assert routes[..|routes|] == routes;
  }

  method RenderRules(rules: seq<Rule>) returns (out: seq<Line>)
    ensures out == RuleLines(rules)
  {
    hide RuleLine;
    out := [];
    for i := 0 to |rules|
      invariant out == RuleLines(rules[..i])
    {
      assert rules[..i + 1] == rules[..i] + [rules[i]];
      RuleSnoc(rules[..i], rules[i]);
      if !rules[i].enabled {
        continue;
      }
      out := out + [RuleLine(rules[i])];
    }
    assert rules[..|rules|] == rules;
  }

  method RenderBackends(backends: map<int, Backend>, routes: seq<Route>)
    returns (out: seq<Line>, warnings: seq<Warning>)
    requires WellNamed(routes)
    ensures out == BackendLines(backends, DomainsOf(routes))
    ensures warnings == RouteWarnings(backends, DomainsOf(routes))
  {
    hide RouteTerm, ConditionOf, WellNamed;
    out, warnings := [], [];
    for i := 0 to |routes|
      invariant out == BackendLines(backends, DomainsOf(routes[..i]))
      invariant warnings == RouteWarnings(backends, DomainsOf(routes[..i]))
    {
      var d := routes[i].domain;
      ConditionIsTerm(routes, i);
      assert DomainsOf(routes[..i + 1]) == DomainsOf(routes[..i]) + [d];
      BackendSnoc(backends, DomainsOf(routes[..i]), d);
      if d.backendId == None {
        continue;
      }
      if d.backendId.value !in backends {
        warnings := warnings + [GoneBackend(d.hostname)];
        continue;
      }
      var bk := backends[d.backendId.value];
      if !bk.enabled {
        warnings := warnings + [DisabledBackend(d.hostname, bk.name)];
        continue;
      }
      out := out + [UseBackend(bk.name, If([ConditionOf(routes[i])]))];
    }
    assert routes[..|routes|] == routes;
  }
}
