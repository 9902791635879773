/**
 The generated HTTPRoute, read with the match precedence of the Gateway API's HTTPRouteRule: an exact
 path first, then the longest segment-wise prefix, then the most headers, then the earlier rule.
 */
module Routing {
  import opened Common

  datatype PathMatch = Exact(value: string) | PathPrefix(value: string)

  datatype HeaderMatch = HeaderMatch(name: string, value: string)

  datatype RouteMatch = RouteMatch(path: PathMatch, headers: seq<HeaderMatch>)

  datatype Action = Redirect(target: string) | Server | WebTier

  datatype Rule = Rule(matches: seq<RouteMatch>, action: Action)

  /** Header names are kept in lower case; they compare without regard to case. */
  datatype Request = Request(path: string, headers: map<string, string>)

  // ---------- the generated rules ----------

  datatype Sso = Sso(autoLoginRedirect: bool, authorizePath: string)

  function RootRedirectTarget(sso: Option<Sso>): string {
    if sso.Some? && sso.value.autoLoginRedirect then
      if sso.value.authorizePath != "" then sso.value.authorizePath else "/sso/authorize"
    else "/web/"
  }

  datatype WebSpec = WebSpec(mode: string)

  function EffectiveMode(web: Option<WebSpec>): string {
    if web.None? || web.value.mode == "" then "deployment" else web.value.mode
  }

  predicate Split(web: Option<WebSpec>) {
    web.Some? && EffectiveMode(web) == "deployment"
  }

  const NAVIGATION := HeaderMatch("Sec-Fetch-Mode", "navigate")

  const PAGE := "/web/ConfigurationPage"
  const PAGE_LOWER := "/web/configurationpage"
  const PAGES := "/web/ConfigurationPages"
  const PAGES_LOWER := "/web/configurationpages"

  function RootRedirectRule(sso: Option<Sso>): Rule {
    Rule([RouteMatch(Exact("/"), [])], Redirect(RootRedirectTarget(sso)))
  }

  const DEFAULT_RULE := Rule([RouteMatch(PathPrefix("/"), [])], Server)

  const NAVIGATION_RULE := Rule([RouteMatch(PathPrefix(PAGE_LOWER), [NAVIGATION]),
                                 RouteMatch(PathPrefix(PAGE), [NAVIGATION])], WebTier)

  const API_RULE := Rule([RouteMatch(PathPrefix(PAGES), []), RouteMatch(PathPrefix(PAGES_LOWER), []),
                          RouteMatch(PathPrefix(PAGE), []), RouteMatch(PathPrefix(PAGE_LOWER), [])], Server)

  const WEB_RULE := Rule([RouteMatch(PathPrefix("/web"), [])], WebTier)

  function BuildRules(web: Option<WebSpec>, sso: Option<Sso>): seq<Rule> {
    if Split(web) then [RootRedirectRule(sso), NAVIGATION_RULE, API_RULE, WEB_RULE, DEFAULT_RULE]
    else [RootRedirectRule(sso), DEFAULT_RULE]
  }

  // ---------- Gateway API semantics ----------

  function LowerChar(c: char): char {
    if 'A' <= c <= 'Z' then c - 'A' + 'a' else c
  }

  function Lower(s: string): string {
    seq(|s|, i requires 0 <= i < |s| => LowerChar(s[i]))
  }

  /** A prefix matches whole path elements; its trailing slash is ignored. */
  predicate Under(prefix: string, path: string) {
    var p := if prefix != [] && prefix[|prefix| - 1] == '/' then prefix[..|prefix| - 1] else prefix;
    (p != "" && path == p) || p + "/" <= path
  }

  predicate Meets(m: RouteMatch, r: Request) {
    && (match m.path
        case Exact(v) => r.path == v
        case PathPrefix(v) => Under(v, r.path))
    && (forall h :: h in m.headers ==> Lower(h.name) in r.headers && r.headers[Lower(h.name)] == h.value)
  }

  /** `m` takes precedence over `m'`. */
  predicate Beats(m: RouteMatch, m': RouteMatch) {
    if m.path.Exact? != m'.path.Exact? then m.path.Exact?
    else if |m.path.value| != |m'.path.value| then |m.path.value| > |m'.path.value|
    else |m.headers| > |m'.headers|
  }

  datatype Candidate = Candidate(m: RouteMatch, action: Action)

  function OfRule(matches: seq<RouteMatch>, action: Action, r: Request): seq<Candidate> {
    if matches == [] then []
    else (if Meets(matches[0], r) then [Candidate(matches[0], action)] else []) + OfRule(matches[1..], action, r)
  }

  function Candidates(rules: seq<Rule>, r: Request): seq<Candidate> {
    if rules == [] then [] else OfRule(rules[0].matches, rules[0].action, r) + Candidates(rules[1..], r)
  }

  /** The first of the candidates that none beats. */
  function Best(cs: seq<Candidate>): Option<Candidate> {
    if cs == [] then None
    else
      var n := |cs| - 1;
      var best := Best(cs[..n]);
      if best.None? || Beats(cs[n].m, best.value.m) then Some(cs[n]) else best
  }

  function Route(rules: seq<Rule>, r: Request): Option<Action> {
    var best := Best(Candidates(rules, r));
    if best.Some? then Some(best.value.action) else None
  }

  // ---------- the decision ----------

  predicate Navigates(r: Request) {
    Lower("Sec-Fetch-Mode") in r.headers && r.headers[Lower("Sec-Fetch-Mode")] == "navigate"
  }

  predicate UnderPage(path: string) {
    Under(PAGE, path) || Under(PAGE_LOWER, path)
  }

  predicate UnderPages(path: string) {
    Under(PAGES, path) || Under(PAGES_LOWER, path)
  }

  /** Where a request should go. */
  function Decide(web: Option<WebSpec>, sso: Option<Sso>, r: Request): Action {
    if r.path == "/" then Redirect(RootRedirectTarget(sso))
    else if !Split(web) then Server
    else if UnderPage(r.path) then if Navigates(r) then WebTier else Server
    else if UnderPages(r.path) then Server
    else if Under("/web", r.path) then WebTier
    else Server
  }

  // ---------- the rules implement the decision ----------

  lemma {:induction false} OfRuleMembers(matches: seq<RouteMatch>, action: Action, r: Request)
    ensures forall c :: c in OfRule(matches, action, r) <==> c.m in matches && c.action == action && Meets(c.m, r)
  {
    if matches != [] {
      OfRuleMembers(matches[1..], action, r);
      assert matches == [matches[0]] + matches[1..];
    }
  }

  lemma {:induction false} CandidateMembers(rules: seq<Rule>, r: Request)
    ensures forall c :: c in Candidates(rules, r) <==>
      exists rule :: rule in rules && c.m in rule.matches && c.action == rule.action && Meets(c.m, r)
  {
    if rules != [] {
      CandidateMembers(rules[1..], r);
      OfRuleMembers(rules[0].matches, rules[0].action, r);
      assert rules == [rules[0]] + rules[1..];
    }
  }

  /** A candidate that beats all others is found, wherever it stands. */
  lemma {:induction false} BestIsTop(cs: seq<Candidate>, top: Candidate)
    requires top in cs && forall c :: c in cs ==> c == top || Beats(top.m, c.m)
    ensures Best(cs) == Some(top)
  {
    var n := |cs| - 1;
    assert cs == cs[..n] + [cs[n]];
    BestIsMember(cs[..n]);
    if top in cs[..n] {
      BestIsTop(cs[..n], top);
    }
  }

  lemma {:induction false} BestIsMember(cs: seq<Candidate>)
    ensures Best(cs).Some? <==> cs != []
    ensures Best(cs).Some? ==> Best(cs).value in cs
  {
    if cs != [] {
      BestIsMember(cs[..|cs| - 1]);
      InitAndLast(cs);
    }
  }

  /** How the generated prefixes lie to each other. */
  lemma PrefixFacts(path: string)
    ensures Under("/", path) <==> path != "" && path[0] == '/'
    ensures UnderPage(path) || UnderPages(path) ==> Under("/web", path) && path != "/"
    ensures Under("/web", path) ==> path != "" && path[0] == '/' && path != "/"
    ensures !(UnderPage(path) && UnderPages(path))
    ensures !(Under(PAGE, path) && Under(PAGE_LOWER, path)) && !(Under(PAGES, path) && Under(PAGES_LOWER, path))
  {
    assert "/"[..0] == "" && "" + "/" == "/";
    assert path != [] && path[0] == '/' ==> "/" <= path;
    assert "/web" + "/" == "/web/";
    assert PAGES == PAGE + "s" && PAGES_LOWER == PAGE_LOWER + "s";
    if UnderPage(path) || UnderPages(path) {
      assert "/web/" <= path;
    }
    assert Under(PAGE, path) || Under(PAGES, path) ==> path[5] == 'C';
    assert Under(PAGE_LOWER, path) || Under(PAGES_LOWER, path) ==> path[5] == 'c';
    assert Under(PAGE, path) || Under(PAGE_LOWER, path) ==> |path| == 22 || path[22] == '/';
    assert Under(PAGES, path) || Under(PAGES_LOWER, path) ==> |path| > 22 && path[22] == 's';
  }

  /** The entries of the generated rules, one by one. */
  ghost predicate Entry(web: Option<WebSpec>, sso: Option<Sso>, c: Candidate) {
    || c == Candidate(RouteMatch(Exact("/"), []), Redirect(RootRedirectTarget(sso)))
    || c == Candidate(RouteMatch(PathPrefix("/"), []), Server)
    || (Split(web) && (
        || c == Candidate(RouteMatch(PathPrefix("/web"), []), WebTier)
        || c == Candidate(RouteMatch(PathPrefix(PAGE), [NAVIGATION]), WebTier)
        || c == Candidate(RouteMatch(PathPrefix(PAGE_LOWER), [NAVIGATION]), WebTier)
        || c == Candidate(RouteMatch(PathPrefix(PAGE), []), Server)
        || c == Candidate(RouteMatch(PathPrefix(PAGE_LOWER), []), Server)
        || c == Candidate(RouteMatch(PathPrefix(PAGES), []), Server)
        || c == Candidate(RouteMatch(PathPrefix(PAGES_LOWER), []), Server)))
  }

  lemma Entries(web: Option<WebSpec>, sso: Option<Sso>, c: Candidate)
    ensures Entry(web, sso, c) <==>
      exists rule :: rule in BuildRules(web, sso) && c.m in rule.matches && c.action == rule.action
  {
    var rules := BuildRules(web, sso);
    assert rules[0] in rules && rules[|rules| - 1] in rules;
    if Split(web) {
      assert rules[1] in rules && rules[2] in rules && rules[3] in rules;
    }
  }

  /** The entry that should win. */
  ghost function Winner(web: Option<WebSpec>, sso: Option<Sso>, r: Request): Candidate {
    var page := if Under(PAGE, r.path) then PAGE else PAGE_LOWER;
    var pages := if Under(PAGES, r.path) then PAGES else PAGES_LOWER;
    if r.path == "/" then Candidate(RouteMatch(Exact("/"), []), Redirect(RootRedirectTarget(sso)))
    else if Split(web) && UnderPage(r.path) then
      if Navigates(r) then Candidate(RouteMatch(PathPrefix(page), [NAVIGATION]), WebTier)
      else Candidate(RouteMatch(PathPrefix(page), []), Server)
    else if Split(web) && UnderPages(r.path) then Candidate(RouteMatch(PathPrefix(pages), []), Server)
    else if Split(web) && Under("/web", r.path) then Candidate(RouteMatch(PathPrefix("/web"), []), WebTier)
    else Candidate(RouteMatch(PathPrefix("/"), []), Server)
  }

  /** No entry ties with the winner: every other entry the request meets is beaten by it. */
  lemma WinnerBeats(web: Option<WebSpec>, sso: Option<Sso>, r: Request, c: Candidate)
    requires r.path != [] && r.path[0] == '/' && Entry(web, sso, c) && Meets(c.m, r)
    ensures c == Winner(web, sso, r) || Beats(Winner(web, sso, r).m, c.m)
  {
    PrefixFacts(r.path);
    assert |PAGE| == |PAGE_LOWER| == 22 && |PAGES| == |PAGES_LOWER| == 23;
    if c.m.headers == [NAVIGATION] {
      assert NAVIGATION in c.m.headers;
    }
  }

  lemma WinnerMeets(web: Option<WebSpec>, sso: Option<Sso>, r: Request)
    requires r.path != [] && r.path[0] == '/'
    ensures Entry(web, sso, Winner(web, sso, r)) && Meets(Winner(web, sso, r).m, r)
    ensures Winner(web, sso, r).action == Decide(web, sso, r)
  {
    PrefixFacts(r.path);
  }

  /**
   Routing refinement: whatever order the rules stand in, Gateway API precedence over them sends every
   request with an absolute path where the decision says, and matches no other request.
   */
  lemma RoutingRefinesDecision(web: Option<WebSpec>, sso: Option<Sso>, rules: seq<Rule>, r: Request)
    requires multiset(rules) == multiset(BuildRules(web, sso))
    ensures Route(rules, r) == if r.path != [] && r.path[0] == '/' then Some(Decide(web, sso, r)) else None
  {
    var cs := Candidates(rules, r);
    CandidateMembers(rules, r);
    forall c
      ensures c in cs <==> Entry(web, sso, c) && Meets(c.m, r)
    {
      Entries(web, sso, c);
      assert forall rule :: rule in rules <==> rule in multiset(rules);
      assert forall rule :: rule in BuildRules(web, sso) <==> rule in multiset(BuildRules(web, sso));
    }
    if r.path != [] && r.path[0] == '/' {
      WinnerMeets(web, sso, r);
      forall c | c in cs
        ensures c == Winner(web, sso, r) || Beats(Winner(web, sso, r).m, c.m)
      {
        WinnerBeats(web, sso, r, c);
      }
      BestIsTop(cs, Winner(web, sso, r));
    } else {
      NothingMeets(web, sso, r);
      BestIsMember(cs);
    }
  }

  lemma NothingMeets(web: Option<WebSpec>, sso: Option<Sso>, r: Request)
    requires r.path == [] || r.path[0] != '/'
    ensures forall c :: Entry(web, sso, c) ==> !Meets(c.m, r)
  {
    PrefixFacts(r.path);
  }

  /** Nothing is ever routed to a separate web tier unless the spec has a web part whose mode is empty or deployment. */
  lemma NoWebTierUnlessSplit(web: Option<WebSpec>, sso: Option<Sso>, rules: seq<Rule>, r: Request)
    requires multiset(rules) == multiset(BuildRules(web, sso))
    ensures Route(rules, r) == Some(WebTier) ==> web.Some? && (web.value.mode == "" || web.value.mode == "deployment")
  {
    RoutingRefinesDecision(web, sso, rules, r);
  }

  // ---------- the same, on the fields of the spec and the request ----------

  /** The page itself or anything below it. */
  predicate Below(page: string, path: string) {
    path == page || page + "/" <= path
  }

  predicate ServesWebTier(web: Option<WebSpec>) {
    web.Some? && (web.value.mode == "" || web.value.mode == "deployment")
  }

  lemma BelowIsUnder(page: string, path: string)
    requires page != "" && page[|page| - 1] != '/'
    ensures Under(page, path) <==> Below(page, path)
  {
  }

  lemma HeaderInLowerCase()
    ensures Lower("Sec-Fetch-Mode") == "sec-fetch-mode"
  {
    assert Lower("Sec-Fetch-Mode") == ['s', 'e', 'c', '-', 'f', 'e', 't', 'c', 'h', '-', 'm', 'o', 'd', 'e'];
  }

  /** The bare root is redirected: to the web client, or to the authorization endpoint if single sign-on asks for it. */
  lemma RootIsRedirected(web: Option<WebSpec>, sso: Option<Sso>, rules: seq<Rule>, r: Request)
    requires multiset(rules) == multiset(BuildRules(web, sso)) && r.path == "/"
    ensures sso.None? || !sso.value.autoLoginRedirect ==> Route(rules, r) == Some(Redirect("/web/"))
    ensures sso.Some? && sso.value.autoLoginRedirect ==>
      Route(rules, r) == Some(Redirect(if sso.value.authorizePath == "" then "/sso/authorize" else sso.value.authorizePath))
  {
    RoutingRefinesDecision(web, sso, rules, r);
  }

  /** Without a web tier of its own, with no web spec or another mode, all but the bare root goes to the server. */
  lemma OneTier(web: Option<WebSpec>, sso: Option<Sso>, rules: seq<Rule>, r: Request)
    requires multiset(rules) == multiset(BuildRules(web, sso))
    requires web.None? || (web.value.mode != "" && web.value.mode != "deployment")
    ensures Route(rules, r) != Some(WebTier)
    ensures r.path != [] && r.path[0] == '/' && r.path != "/" ==> Route(rules, r) == Some(Server)
  {
    RoutingRefinesDecision(web, sso, rules, r);
  }

  /**
   With a web tier, everything under /web goes to it but the configuration pages: the list of pages goes to the
   server, and a single page goes to the web tier when a browser navigates to it and to the server otherwise.
   */
  lemma TwoTiers(web: Option<WebSpec>, sso: Option<Sso>, rules: seq<Rule>, r: Request)
    requires multiset(rules) == multiset(BuildRules(web, sso)) && ServesWebTier(web)
    ensures
      var page := Below("/web/ConfigurationPage", r.path) || Below("/web/configurationpage", r.path);
      var pages := Below("/web/ConfigurationPages", r.path) || Below("/web/configurationpages", r.path);
      var navigates := "sec-fetch-mode" in r.headers && r.headers["sec-fetch-mode"] == "navigate";
      && (page ==> Route(rules, r) == Some(if navigates then WebTier else Server))
      && (pages ==> Route(rules, r) == Some(Server))
      && (Below("/web", r.path) && !page && !pages ==> Route(rules, r) == Some(WebTier))
      && (r.path != [] && r.path[0] == '/' && r.path != "/" && !Below("/web", r.path) ==> Route(rules, r) == Some(Server))
  {
    RoutingRefinesDecision(web, sso, rules, r);
    PrefixFacts(r.path);
    HeaderInLowerCase();
    PagesBelow(r.path);
  }

  lemma PagesBelow(path: string)
    ensures UnderPage(path) <==> Below("/web/ConfigurationPage", path) || Below("/web/configurationpage", path)
    ensures UnderPages(path) <==> Below("/web/ConfigurationPages", path) || Below("/web/configurationpages", path)
    ensures Under("/web", path) <==> Below("/web", path)
  {
    BelowIsUnder("/web/ConfigurationPage", path);
    BelowIsUnder("/web/configurationpage", path);
    BelowIsUnder("/web/ConfigurationPages", path);
    BelowIsUnder("/web/configurationpages", path);
    BelowIsUnder("/web", path);
  }
}
