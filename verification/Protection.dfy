/** From an ingress annotation to an upstream request: what an OIDC
    annotation guarantees, across compilation, pipeline and sessions. */
module Protection {
  import opened Prelude
  import opened Kube
  import opened Converter
  import opened Routing
  import opened Aggregate
  import opened Pipeline
  import E = EndToEnd
  import Guards
  import Hosts
  import Server
  import Sessions = Oidc
  import State

  /** The guard that an OIDC annotation asks for. */
  function GuardFor(ing: Ingress): Middleware {
    OidcGuard(Annotation(ing, OIDC_KEY), RequireList(Annotation(ing, OIDC_GROUP_KEY)), RequireList(Annotation(ing, OIDC_EMAIL_KEY)))
  }

  ghost predicate HasOidc(ms: seq<Module>) {
    exists m :: m in ms && m.Oidc?
  }

  lemma {:induction false} GuardInChain(
    libs: Libs, c: Cluster, ms: seq<Module>, out: seq<Middleware>, acc: IngressConf, ing: Ingress
  )
    requires Middlewares(libs, c, ms, out, acc, ing).Ok? && Annotation(ing, OIDC_KEY) != ""
    requires HasOidc(ms) || GuardFor(ing) in out
    ensures GuardFor(ing) in Middlewares(libs, c, ms, out, acc, ing).value.0
    decreases |ms|
  {
    if ms != [] {
      var got := ModuleMiddleware(libs, c, ms[0], acc, ing).value;
      assert ms[0].Oidc? ==> got.0 == Some(GuardFor(ing));
      assert forall m :: m in ms ==> m == ms[0] || m in ms[1..];
      GuardInChain(libs, c, ms[1..], Appended(out, got.0), got.1, ing);
    }
  }

  lemma {:induction false} GuardOnPaths(libs: Libs, conf: ControllerConf, c: Cluster, ing: Ingress, ps: seq<HttpPath>)
    requires HasOidc(conf.modules) && Annotation(ing, OIDC_KEY) != ""
    ensures forall r :: r in DeclaredPaths(libs, conf, c, ing, ps) ==> GuardFor(ing) in r.middlewares
    decreases |ps|
  {
    if ps != [] {
      GuardOnPaths(libs, conf, c, ing, ps[1..]);
      if Middlewares(libs, c, conf.modules, [], EMPTY_CONF, ing).Ok? {
        GuardInChain(libs, c, conf.modules, [], EMPTY_CONF, ing);
      }
    }
  }

  /** Every route of an annotated ingress carries its guard. */
  lemma {:induction false} GuardOnRoutes(
    libs: Libs, conf: ControllerConf, c: Cluster, ing: Ingress, rules: seq<Rule>, h: string
  )
    requires HasOidc(conf.modules) && Annotation(ing, OIDC_KEY) != ""
    ensures forall r :: r in Declared(libs, conf, c, ing, rules, h) ==> GuardFor(ing) in r.middlewares
    decreases |rules|
  {
    if rules != [] {
      GuardOnPaths(libs, conf, c, ing, rules[0].paths);
      GuardOnRoutes(libs, conf, c, ing, rules[1..], h);
    }
  }

  /** A request to an annotated ingress reaches its upstream, or has a websocket dialled to it, only if the guard
      passes. */
  lemma GuardDecides(
    libs: Libs, conf: ControllerConf, c: Cluster, ing: Ingress, h: string, r: Route, env: Env
  )
    requires Server.ModulesInOrder(conf.modules) && Websocket in conf.modules && HasOidc(conf.modules)
    requires Annotation(ing, OIDC_KEY) != "" && r in Declared(libs, conf, c, ing, ing.rules, h)
    requires Reached(ProxyRoute(env, r, UNWRITTEN))
    ensures Passes(env, GuardFor(ing))
  {
    Server.DeclaredChains(libs, conf, c, ing, ing.rules, h);
    GuardOnRoutes(libs, conf, c, ing, ing.rules, h);
    if env.requestOk {
      RouteGates(env, r.middlewares);
    }
  }

  /** The upstream was contacted, or a websocket dialled to it. */
  predicate Reached(out: Out) {
    Contact in out.w.events || WebsocketDial in out.w.events
  }

  // From the request to the route

  lemma {:induction false} EntryHasNoWebsocket(ms: seq<Module>, out: seq<Middleware>)
    requires ConnectionModules(ms, out).Ok? && WebsocketProxy !in out
    ensures WebsocketProxy !in ConnectionModules(ms, out).value
    decreases |ms|
  {
    if ms != [] {
      EntryHasNoWebsocket(ms[1..], Appended(out, RequestMiddleware(ms[0]).value));
    }
  }

  lemma RecoverReaches(env: Env, out: Out)
    ensures Reached(Recover(env, out)) <==> Reached(out)
  {
  }

  /** A request that reaches an upstream was resolved to a route, and reached it through that route's chain. */
  lemma ServeReaches(env: Env, conf: ProxyConf) returns (r: Route)
    requires WebsocketProxy !in conf.requestMiddlewares && Reached(Serve(env, Some(conf)))
    ensures env.asciiHost.Some? && Resolve(conf.hosts, env.asciiHost.value, env.path) == Some(Hit(r))
    ensures Reached(ProxyRoute(env, r, UNWRITTEN))
  {
    var ms := conf.requestMiddlewares;
    var out := Call(env, ms, UNWRITTEN, Pipeline.Route(env, conf));
    RecoverReaches(env, out);
    ChainDecided(env, ms, UNWRITTEN, Pipeline.Route(env, conf));
    var i := FirstStop(env, ms);
    if i < |ms| {
      RejectEvents(env, ms[i]);
    }
    assert i == |ms| && out == HandleHttp(env, conf, UNWRITTEN);
    r := HandleReaches(env, conf);
  }

  lemma HandleReaches(env: Env, conf: ProxyConf) returns (r: Route)
    requires Reached(HandleHttp(env, conf, UNWRITTEN))
    ensures env.asciiHost.Some? && Resolve(conf.hosts, env.asciiHost.value, env.path) == Some(Hit(r))
    ensures Reached(ProxyRoute(env, r, UNWRITTEN))
  {
    r := Resolve(conf.hosts, env.asciiHost.value, env.path).value.route;
  }

  lemma {:induction false} MatchIsMember(rs: seq<Route>, raw: string, r: Route)
    requires FirstMatch(rs, raw) == Hit(r)
    ensures r in rs
  {
    if !Stops(rs[0], raw) {
      MatchIsMember(rs[1..], raw, r);
    }
  }

  lemma ResolvedMember(hosts: map<string, seq<Route>>, host: string, path: string, r: Route) returns (h: string)
    requires Resolve(hosts, host, path) == Some(Hit(r))
    ensures r in RoutesOf(hosts, h)
  {
    var d := Hosts.FirstDot(host);
    h := if host in hosts then host else if d != -1 && host[d..] in hosts then host[d..] else "";
    MatchIsMember(hosts[h], path, r);
  }

  // Sessions decide the guards

  /** What the browser sends for each client, how the provider answers a renewal, and how long that takes. */
  datatype Visit = Visit(
    cookie: string -> Option<Sessions.Cookie>, outcome: string -> Option<Sessions.Token>, wait: nat, randomOk: bool)

  /** The session step that a guard takes for this visit. */
  function SessionStep(v: Visit, guard: Middleware): Sessions.Step
    requires guard.OidcGuard?
  {
    Sessions.Request(guard.client, Sessions.IngressConfig(guard.groups, guard.emails),
                     v.cookie(guard.client), v.wait, v.outcome(guard.client))
  }

  /** What the OIDC module decides for a guard. */
  function SessionOf(clients: Sessions.Clients, w: Sessions.World, v: Visit, m: Middleware): SessionOutcome {
    if !m.OidcGuard? || m.client !in clients then ExtractError
    else
      match Sessions.VerdictOf(clients, w, SessionStep(v, m))
      case Login => NoSession(v.randomOk)
      case Forbid => NoAccess
      case Admit(_) => Session
  }

  /** The request with its guards decided by the OIDC sessions. */
  function WithSessions(env: Env, clients: Sessions.Clients, w: Sessions.World, v: Visit): Env {
    env.(session := (m: Middleware) => SessionOf(clients, w, v, m))
  }

  lemma GuardAdmits(env: Env, clients: Sessions.Clients, w: Sessions.World, v: Visit, guard: Middleware)
    requires guard.OidcGuard? && Passes(WithSessions(env, clients, w, v), guard)
    ensures guard.client in clients && Sessions.VerdictOf(clients, w, SessionStep(v, guard)).Admit?
  {
  }

  /** The annotations of the ingress ask for no group and no address, or list this address, or one of these groups. */
  ghost predicate Entitled(ing: Ingress, email: string, groups: seq<string>) {
    exists wanted, emails ::
      && Guards.Requirement(Annotation(ing, OIDC_GROUP_KEY), wanted)
      && Guards.Requirement(Annotation(ing, OIDC_EMAIL_KEY), emails)
      && Sessions.HasAccess(Sessions.IngressConfig(wanted, emails), email, groups)
  }

  lemma EntitledExactly(ing: Ingress, info: Sessions.AuthInfo)
    ensures var conf := Sessions.IngressConfig(RequireList(Annotation(ing, OIDC_GROUP_KEY)), RequireList(Annotation(ing, OIDC_EMAIL_KEY)));
            Sessions.CheckAccess(conf, info) <==> Entitled(ing, info.email, info.groups)
  {
    var conf := Sessions.IngressConfig(RequireList(Annotation(ing, OIDC_GROUP_KEY)), RequireList(Annotation(ing, OIDC_EMAIL_KEY)));
    Sessions.AccessExactly(conf, info);
    Guards.RequirementExactly(Annotation(ing, OIDC_GROUP_KEY), conf.groups);
    Guards.RequirementExactly(Annotation(ing, OIDC_EMAIL_KEY), conf.emails);
    forall wanted, emails | && Guards.Requirement(Annotation(ing, OIDC_GROUP_KEY), wanted)
                            && Guards.Requirement(Annotation(ing, OIDC_EMAIL_KEY), emails)
      ensures conf == Sessions.IngressConfig(wanted, emails)
    {
      Guards.RequirementExactly(Annotation(ing, OIDC_GROUP_KEY), wanted);
      Guards.RequirementExactly(Annotation(ing, OIDC_EMAIL_KEY), emails);
    }
  }

  /** In every quiescent state of every tame run: a request that ServeHTTP lets reach an upstream goes to a route of an
      ingress of this controller. If that ingress has an OIDC annotation, and the client has its own key and an
      expiration, the request came within the expiration of a verified login to the client, and from someone the
      ingress gives access to. */
  lemma ProtectedUpstream(
    cenv: State.Env, states: seq<E.Whole>, steps: seq<E.Step>, i: nat, request: Env,
    clients: Sessions.Clients, worlds: seq<Sessions.World>, moves: seq<Sessions.Step>, j: nat, v: Visit
  ) returns (r: Route)
    requires E.TameRun(cenv, states, steps) && i < |states| && E.Quiescent(states[i]) && states[i].watch.ctl.config.Some?
    requires var modules := states[i].watch.ctl.config.value.modules;
             Server.ModulesInOrder(modules) && Websocket in modules && HasOidc(modules)
    requires Sessions.IsRun(clients, worlds, moves) && j < |moves|
    requires Reached(Serve(WithSessions(request, clients, worlds[j], v), E.Installed(states[i])))
    ensures E.OwnIngress(cenv, states[i].watch.cluster, r.ingress)
    ensures E.Installed(states[i]).Some? && request.asciiHost.Some?
    ensures Resolve(E.Installed(states[i]).value.hosts, request.asciiHost.value, request.path) == Some(Hit(r))
    ensures var ing := states[i].watch.cluster.ingresses[r.ingress];
            var d := Annotation(ing, OIDC_KEY);
            && (d != "" ==> d in clients)
            && (d != "" && moves[j] == SessionStep(v, GuardFor(ing)) && Sessions.OwnKey(clients, d) && clients[d].expiration != 0 ==>
                  && Sessions.WithinSession(clients, worlds, moves, j, d)
                  && Sessions.VerdictOf(clients, worlds[j], moves[j]).Admit?
                  && var info := Sessions.VerdictOf(clients, worlds[j], moves[j]).info; Entitled(ing, info.email, info.groups))
  {
    var env, s := WithSessions(request, clients, worlds[j], v), states[i];
    var conf, c := s.watch.ctl.config.value, s.watch.cluster;
    E.QuiescentIsRebuild(cenv, states, steps, i);
    InstalledEntry(s);
    r := ServeReaches(env, E.Installed(s).value);
    var h := ResolvedMember(E.Installed(s).value.hosts, env.asciiHost.value, env.path, r);
    E.QuiescentRoutesExactly(cenv, states, steps, i, h, r);
    var ing := c.ingresses[r.ingress];
    if Annotation(ing, OIDC_KEY) != "" {
      GuardDecides(cenv.libs, conf, c, ing, h, r, env);
      GuardAdmits(request, clients, worlds[j], v, GuardFor(ing));
      SessionProtects(clients, worlds, moves, j, v, ing);
    }
  }

  lemma InstalledEntry(s: E.Whole)
    requires s.watch.ctl.config.Some? && E.Installed(s).Some? && IsAggregate(E.Installed(s), s.watch.ctl)
    ensures WebsocketProxy !in E.Installed(s).value.requestMiddlewares
  {
    ConnectionModulesSucceed(s.watch.ctl.config.value.modules, []);
    EntryHasNoWebsocket(s.watch.ctl.config.value.modules, []);
  }

  lemma SessionProtects(
    clients: Sessions.Clients, worlds: seq<Sessions.World>, moves: seq<Sessions.Step>, j: nat, v: Visit, ing: Ingress
  )
    requires Sessions.IsRun(clients, worlds, moves) && j < |moves|
    requires var guard := GuardFor(ing);
             guard.client in clients && Sessions.VerdictOf(clients, worlds[j], SessionStep(v, guard)).Admit?
    ensures var d := Annotation(ing, OIDC_KEY);
            moves[j] == SessionStep(v, GuardFor(ing)) && Sessions.OwnKey(clients, d) && clients[d].expiration != 0 ==>
              && Sessions.WithinSession(clients, worlds, moves, j, d)
              && Sessions.VerdictOf(clients, worlds[j], moves[j]).Admit?
              && var info := Sessions.VerdictOf(clients, worlds[j], moves[j]).info; Entitled(ing, info.email, info.groups)
  {
    var d := Annotation(ing, OIDC_KEY);
    if moves[j] == SessionStep(v, GuardFor(ing)) && Sessions.OwnKey(clients, d) && clients[d].expiration != 0 {
      Sessions.SessionBound(clients, worlds, moves, j, d);
      EntitledExactly(ing, Sessions.VerdictOf(clients, worlds[j], moves[j]).info);
    }
  }

  // What every request gets

  /** h is what remains of host after its first label. */
  ghost predicate Behind(host: string, h: string) {
    h != "" && h[0] == '.' && exists first :: '.' !in first && host == first + h
  }

  /** The rules that serve a request host: those for the host itself, else those for what follows its first label, else
      those without a host. */
  ghost predicate IsRuleHost(hosts: map<string, seq<Route>>, host: string, h: string) {
    && h in hosts
    && (host in hosts ==> h == host)
    && (host !in hosts ==> Behind(host, h) || (h == "" && forall k :: k in hosts ==> !Behind(host, k)))
  }

  lemma BehindFirstDot(host: string, h: string)
    ensures Behind(host, h) <==> Hosts.FirstDot(host) != -1 && h == host[Hosts.FirstDot(host)..]
  {
    var d := Hosts.FirstDot(host);
    if Behind(host, h) {
      var first :| '.' !in first && host == first + h;
      assert host[|first|] == '.' && host[|first|..] == h;
      assert forall k :: 0 <= k < |first| ==> host[k] == first[k] && first[k] in first;
    }
    if d != -1 && h == host[d..] {
      assert host == host[..d] + h;
      assert forall k :: 0 <= k < d ==> host[..d][k] == host[k];
    }
  }

  /** A lookup goes to the rules of one host, or to none. */
  lemma ResolvedExactly(hosts: map<string, seq<Route>>, host: string, path: string, h: string)
    ensures IsRuleHost(hosts, host, h) ==> Resolve(hosts, host, path) == Some(FirstMatch(hosts[h], path))
    ensures Resolve(hosts, host, path) == None <==> forall k :: !IsRuleHost(hosts, host, k)
  {
    var d := Hosts.FirstDot(host);
    forall k ensures Behind(host, k) <==> d != -1 && k == host[d..] {
      BehindFirstDot(host, k);
    }
    assert host in hosts ==> IsRuleHost(hosts, host, host);
    assert host !in hosts && d != -1 && host[d..] in hosts ==> IsRuleHost(hosts, host, host[d..]);
    assert host !in hosts && !(d != -1 && host[d..] in hosts) && "" in hosts ==> IsRuleHost(hosts, host, "");
  }

  /** The installed configuration has the HTTPS redirect and the login callback in front of all routes, as configured. */
  lemma InstalledEntryExactly(cenv: State.Env, states: seq<E.Whole>, steps: seq<E.Step>, i: nat, x: Middleware)
    requires E.TameRun(cenv, states, steps) && i < |states| && E.Quiescent(states[i])
    ensures var s := states[i];
            && s.watch.ctl.config.Some? && E.Installed(s).Some?
            && (x in E.Installed(s).value.requestMiddlewares <==>
                exists m :: m in s.watch.ctl.config.value.modules && Guards.WantsAtEntry(m, x))
  {
    E.QuiescentIsRebuild(cenv, states, steps, i);
    Guards.EntryExactly(states[i].watch.ctl.config.value.modules, [], x);
  }

  /** r is declared for the host, and no declared match goes before it. */
  ghost predicate IsForemost(decl: Declarations, raw: string, r: Route) {
    && r.ingress in decl && r in decl[r.ingress] && Matches(r, raw)
    && forall n, q :: n in decl && q in decl[n] && Matches(q, raw) ==> InPathOrder(r, q)
  }

  /** The served route of a request, or what it gets without one. */
  lemma FoundExactly(
    cenv: State.Env, states: seq<E.Whole>, steps: seq<E.Step>, i: nat, host: string, path: string, h: string
  ) returns (r: Route)
    requires E.TameRun(cenv, states, steps) && i < |states| && E.Quiescent(states[i])
    requires E.Installed(states[i]).Some? && states[i].watch.ctl.config.Some?
    requires IsRuleHost(E.Installed(states[i]).value.hosts, host, h)
    ensures var c := states[i].watch.cluster;
            var decl := E.DeclaredIn(cenv, states[i].watch.ctl.config.value, c, h);
            var found := Resolve(E.Installed(states[i]).value.hosts, host, path);
            && (SomeDeclaredMatches(decl.Keys, decl, path) ==>
                  found == Some(Hit(r)) && IsForemost(decl, path, r) && E.OwnIngress(cenv, c, r.ingress))
            && (!SomeDeclaredMatches(decl.Keys, decl, path) ==>
                  found == Some(if SomeDeclaredPanics(decl.Keys, decl) then Crash else Miss))
  {
    var s := states[i];
    var decl := E.DeclaredIn(cenv, s.watch.ctl.config.value, s.watch.cluster, h);
    var order, p, j := E.QuiescentRouting(cenv, states, steps, i, h, path);
    ResolvedExactly(E.Installed(s).value.hosts, host, path, h);
    if SomeDeclaredMatches(decl.Keys, decl, path) {
      r := decl[order[p]][j];
      MatchIsMember(E.Installed(s).value.hosts[h], path, r);
      E.QuiescentRoutesExactly(cenv, states, steps, i, h, r);
    } else {
      r := *;
    }
  }

  /** In every quiescent state of every tame run under the shipped modules, what a request gets follows from the cluster:
      404 when no rule of its host matches, and else the foremost match, whose upstream it reaches exactly when it
      meets the annotations of that ingress, and whose answer it then gets. */
  lemma ServedExactly(
    cenv: State.Env, states: seq<E.Whole>, steps: seq<E.Step>, i: nat, request: Env, h: string,
    https: bool, auth: map<string, ForwardAuthConf>, clients: set<string>, domains: map<string, string>
  ) returns (r: Route)
    requires E.TameRun(cenv, states, steps) && i < |states| && E.Quiescent(states[i])
    requires E.Installed(states[i]).Some? && states[i].watch.ctl.config.Some?
    requires states[i].watch.ctl.config.value.modules == ShippedModules(https, auth, clients, domains)
    requires request.asciiHost.Some? && IsRuleHost(E.Installed(states[i]).value.hosts, request.asciiHost.value, h)
    requires Guards.PastEntry(request, https, domains) && request.requestOk
    ensures var c := states[i].watch.cluster;
            var decl := E.DeclaredIn(cenv, states[i].watch.ctl.config.value, c, h);
            var events := Serve(request, E.Installed(states[i])).w.events;
            && (!SomeDeclaredMatches(decl.Keys, decl, request.path) ==>
                  events == if SomeDeclaredPanics(decl.Keys, decl) then [] else Page(request, 404))
            && (SomeDeclaredMatches(decl.Keys, decl, request.path) ==>
                  && IsForemost(decl, request.path, r) && E.OwnIngress(cenv, c, r.ingress)
                  && var meets := Guards.MeetsAnnotations(request, c, c.ingresses[r.ingress], https, auth);
                     && (Contact in events <==> meets && !request.upgrade)
                     && (WebsocketDial in events <==> meets && request.upgrade)
                     && (meets && !request.upgrade ==> Guards.AnswerOfUpstream(request, events)))
  {
    var s := states[i];
    var conf, c := s.watch.ctl.config.value, s.watch.cluster;
    var decl := E.DeclaredIn(cenv, conf, c, h);
    E.QuiescentIsRebuild(cenv, states, steps, i);
    Guards.EntryAdmits(request, https, auth, clients, domains);
    r := FoundExactly(cenv, states, steps, i, request.asciiHost.value, request.path, h);
    if SomeDeclaredMatches(decl.Keys, decl, request.path) {
      Guards.AnsweredExactly(request, E.Installed(s).value, cenv.libs, conf, c, c.ingresses[r.ingress], h, r, https, auth, clients, domains);
    } else {
      ServedWithoutRoute(request, E.Installed(s).value);
    }
  }
}
