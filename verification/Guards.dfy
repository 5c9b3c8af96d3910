/** What the annotations of an ingress put in front of its upstream, and when
    a request gets past it. */
module Guards {
  import opened Prelude
  import opened Kube
  import opened Converter
  import opened Pipeline
  import Aggregate
  import Routing
  import Server
  import Text

  // What a module makes of the annotations

  /** list holds the comma-separated parts of raw, in order, each without the spaces around it. */
  ghost predicate CommaParts(raw: string, list: seq<string>) {
    var parts := Text.Split(raw, ',');
    |list| == |parts| && forall i :: 0 <= i < |list| ==> list[i] == Text.Trimmed(parts[i], Text.SPACES)
  }

  /** No requirement when the annotation is absent or empty. */
  ghost predicate Requirement(raw: string, given: Option<seq<string>>) {
    if raw == "" then given == None else given.Some? && CommaParts(raw, given.value)
  }

  /** The password file of the secret that the ingress names. */
  ghost predicate Passwords(c: Cluster, ing: Ingress, htpasswd: string) {
    BASIC_SECRET_KEY in ing.annotations &&
    var secret := Name(ing.id.namespace, ing.annotations[BASIC_SECRET_KEY]);
    secret in c.secrets && "auth" in c.secrets[secret].data && c.secrets[secret].data["auth"] == htpasswd
  }

  /** Where to ask, and where to send those who may not pass: the ingress's own addresses, else the named ones. */
  ghost predicate AuthAddresses(configs: map<string, ForwardAuthConf>, ing: Ingress, authUrl: string, signInUrl: string) {
    if AUTH_URL_KEY in ing.annotations && AUTH_SIGNIN_KEY in ing.annotations then
      authUrl == ing.annotations[AUTH_URL_KEY] && signInUrl == ing.annotations[AUTH_SIGNIN_KEY]
    else
      && AUTH_KEY in ing.annotations && ing.annotations[AUTH_KEY] in configs
      && authUrl == configs[ing.annotations[AUTH_KEY]].authUrl
      && signInUrl == configs[ing.annotations[AUTH_KEY]].signInUrl
  }

  /** Module m puts x in front of the upstreams of ing. */
  ghost predicate Wants(c: Cluster, ing: Ingress, m: Module, x: Middleware) {
    match m
    case EnforceHttps(byDefault) =>
      x == HttpsRedirect(false) && (byDefault || (HTTPS_KEY in ing.annotations && ing.annotations[HTTPS_KEY] == "true"))
    case IpAuth => x.IpAllowlist? && ALLOW_IP_KEY in ing.annotations && CommaParts(ing.annotations[ALLOW_IP_KEY], x.prefixes)
    case BasicAuthModule =>
      && x.BasicAuth? && BASIC_REALM_KEY in ing.annotations && x.realm == ing.annotations[BASIC_REALM_KEY]
      && Passwords(c, ing, x.htpasswd)
    case SubrequestAuth(configs) => x.ForwardAuth? && AuthAddresses(configs, ing, x.authUrl, x.signInUrl)
    case Oidc(clients, _) =>
      && x.OidcGuard? && x.client != "" && OIDC_KEY in ing.annotations && x.client == ing.annotations[OIDC_KEY]
      && Requirement(Annotation(ing, OIDC_GROUP_KEY), x.groups) && Requirement(Annotation(ing, OIDC_EMAIL_KEY), x.emails)
    case DenyRoute => x.DenyPath? && x.pattern != "" && DENY_KEY in ing.annotations && x.pattern == ing.annotations[DENY_KEY]
    case Websocket => x == WebsocketProxy
    case CustomHeader =>
      && x.ResponseHeaders? && Annotation(ing, RESPONSE_HEADERS_KEY) != ""
      && x.lines == Text.Split(ing.annotations[RESPONSE_HEADERS_KEY], '\n')
    case UpstreamHeader =>
      && x.UpstreamHeaders? && Annotation(ing, UPSTREAM_HEADERS_KEY) != ""
      && x.lines == Text.Split(ing.annotations[UPSTREAM_HEADERS_KEY], '\n')
  }

  lemma CommaPartsExactly(raw: string, list: seq<string>)
    ensures CommaParts(raw, list) <==> list == Text.CommaList(raw)
  {
    var parts := Text.Split(raw, ',');
    Text.TrimAllAt(parts, Text.SPACES);
    var all := Text.TrimAll(parts, Text.SPACES);
    if CommaParts(raw, list) {
      assert forall i :: 0 <= i < |list| ==> list[i] == all[i];
    }
  }

  lemma RequirementExactly(raw: string, given: Option<seq<string>>)
    ensures Requirement(raw, given) <==> given == RequireList(raw)
  {
    if given.Some? {
      CommaPartsExactly(raw, given.value);
    }
    CommaPartsExactly(raw, Text.CommaList(raw));
  }

  /** A module that accepts the ingress contributes exactly what it wants. */
  lemma ModuleExactly(libs: Libs, c: Cluster, m: Module, acc: IngressConf, ing: Ingress, x: Middleware)
    requires ModuleMiddleware(libs, c, m, acc, ing).Ok?
    ensures ModuleMiddleware(libs, c, m, acc, ing).value.0 == Some(x) <==> Wants(c, ing, m, x)
  {
    if m.IpAuth? && x.IpAllowlist? && ALLOW_IP_KEY in ing.annotations {
      CommaPartsExactly(ing.annotations[ALLOW_IP_KEY], x.prefixes);
    }
    if m.Oidc? && x.OidcGuard? {
      RequirementExactly(Annotation(ing, OIDC_GROUP_KEY), x.groups);
      RequirementExactly(Annotation(ing, OIDC_EMAIL_KEY), x.emails);
    }
  }

  lemma {:induction false} ChainExactly(
    libs: Libs, c: Cluster, ms: seq<Module>, out: seq<Middleware>, acc: IngressConf, ing: Ingress, x: Middleware
  )
    requires Middlewares(libs, c, ms, out, acc, ing).Ok?
    ensures x in Middlewares(libs, c, ms, out, acc, ing).value.0 <==> x in out || exists m :: m in ms && Wants(c, ing, m, x)
    decreases |ms|
  {
    if ms != [] {
      var got := ModuleMiddleware(libs, c, ms[0], acc, ing).value;
      ModuleExactly(libs, c, ms[0], acc, ing, x);
      ChainExactly(libs, c, ms[1..], Appended(out, got.0), got.1, ing, x);
      assert forall m :: m in ms <==> m == ms[0] || m in ms[1..];
    }
  }

  // Routes

  lemma {:induction false} PathsHaveChain(libs: Libs, conf: ControllerConf, c: Cluster, ing: Ingress, ps: seq<HttpPath>, r: Route)
    requires r in DeclaredPaths(libs, conf, c, ing, ps)
    ensures var chain := Middlewares(libs, c, conf.modules, [], EMPTY_CONF, ing);
            chain.Ok? && r.middlewares == chain.value.0
    decreases |ps|
  {
    if r !in RouteFor(libs, conf, c, ing, ps[0]) {
      PathsHaveChain(libs, conf, c, ing, ps[1..], r);
    }
  }

  /** Every route of an ingress has the same chain. */
  lemma {:induction false} RoutesHaveChain(
    libs: Libs, conf: ControllerConf, c: Cluster, ing: Ingress, rules: seq<Rule>, h: string, r: Route
  )
    requires r in Declared(libs, conf, c, ing, rules, h)
    ensures var chain := Middlewares(libs, c, conf.modules, [], EMPTY_CONF, ing);
            chain.Ok? && r.middlewares == chain.value.0
    decreases |rules|
  {
    if rules[0].host == h && r in DeclaredPaths(libs, conf, c, ing, rules[0].paths) {
      PathsHaveChain(libs, conf, c, ing, rules[0].paths, r);
    } else {
      RoutesHaveChain(libs, conf, c, ing, rules[1..], h, r);
    }
  }

  /** What stands in front of a declared route is exactly what some module wants by the annotations of its ingress. */
  lemma GuardsOnRoutes(
    libs: Libs, conf: ControllerConf, c: Cluster, ing: Ingress, h: string, r: Route, x: Middleware
  )
    requires r in Declared(libs, conf, c, ing, ing.rules, h)
    ensures x in r.middlewares <==> exists m :: m in conf.modules && Wants(c, ing, m, x)
  {
    RoutesHaveChain(libs, conf, c, ing, ing.rules, h, r);
    ChainExactly(libs, c, conf.modules, [], EMPTY_CONF, ing, x);
  }

  // Requests

  /** The request meets the condition that module m takes from the annotations of the ingress. */
  ghost predicate Meets(env: Env, c: Cluster, ing: Ingress, m: Module) {
    match m
    case EnforceHttps(byDefault) =>
      byDefault || (HTTPS_KEY in ing.annotations && ing.annotations[HTTPS_KEY] == "true") ==> env.tls
    case IpAuth =>
      ALLOW_IP_KEY in ing.annotations ==>
        forall list :: CommaParts(ing.annotations[ALLOW_IP_KEY], list) ==> env.inAllowlist(list)
    case BasicAuthModule =>
      BASIC_REALM_KEY in ing.annotations ==>
        forall htpasswd :: Passwords(c, ing, htpasswd) ==> env.basic(htpasswd) == Match
    case SubrequestAuth(configs) =>
      forall authUrl, signInUrl :: AuthAddresses(configs, ing, authUrl, signInUrl) ==>
        env.forward(authUrl).ForwardStatus? && 200 <= env.forward(authUrl).code <= 299
    case Oidc(_, _) =>
      Annotation(ing, OIDC_KEY) != "" ==>
        forall groups, emails ::
          Requirement(Annotation(ing, OIDC_GROUP_KEY), groups) && Requirement(Annotation(ing, OIDC_EMAIL_KEY), emails) ==>
            env.session(OidcGuard(Annotation(ing, OIDC_KEY), groups, emails)) == Session
    case DenyRoute => Annotation(ing, DENY_KEY) != "" ==> !env.pathDenied(Annotation(ing, DENY_KEY))
    case _ => true
  }

  /** The request meets every condition that the annotations of the ingress set under the shipped modules. */
  ghost predicate MeetsAnnotations(env: Env, c: Cluster, ing: Ingress, https: bool, auth: map<string, ForwardAuthConf>) {
    && Meets(env, c, ing, EnforceHttps(https)) && Meets(env, c, ing, IpAuth) && Meets(env, c, ing, BasicAuthModule)
    && Meets(env, c, ing, SubrequestAuth(auth)) && Meets(env, c, ing, Module.Oidc({}, map[])) && Meets(env, c, ing, DenyRoute)
  }

  /** What m wants admits the request, unless it is no guard. */
  ghost predicate WantedAdmits(env: Env, c: Cluster, ing: Ingress, m: Module) {
    forall x :: Wants(c, ing, m, x) && IsGuard(x) ==> Admits(env, x)
  }

  lemma MeetsExactly(env: Env, c: Cluster, ing: Ingress, m: Module)
    ensures WantedAdmits(env, c, ing, m) <==> Meets(env, c, ing, m)
  {
    if WantedAdmits(env, c, ing, m) {
      WantedMeets(env, c, ing, m);
    }
  }

  lemma WantedMeets(env: Env, c: Cluster, ing: Ingress, m: Module)
    requires WantedAdmits(env, c, ing, m)
    ensures Meets(env, c, ing, m)
  {
    match m
    case EnforceHttps(_) =>
      assert Wants(c, ing, m, HttpsRedirect(false)) ==> Admits(env, HttpsRedirect(false));
    case IpAuth =>
      forall list | ALLOW_IP_KEY in ing.annotations && CommaParts(ing.annotations[ALLOW_IP_KEY], list)
        ensures env.inAllowlist(list)
      {
        assert Wants(c, ing, m, IpAllowlist(list));
      }
    case BasicAuthModule =>
      forall htpasswd | BASIC_REALM_KEY in ing.annotations && Passwords(c, ing, htpasswd)
        ensures env.basic(htpasswd) == Match
      {
        assert Wants(c, ing, m, BasicAuth(ing.annotations[BASIC_REALM_KEY], htpasswd));
      }
    case SubrequestAuth(configs) =>
      forall authUrl, signInUrl | AuthAddresses(configs, ing, authUrl, signInUrl)
        ensures env.forward(authUrl).ForwardStatus? && 200 <= env.forward(authUrl).code <= 299
      {
        assert Wants(c, ing, m, ForwardAuth(authUrl, signInUrl));
      }
    case Oidc(_, _) =>
      var d := Annotation(ing, OIDC_KEY);
      assert forall groups, emails :: Wants(c, ing, m, OidcGuard(d, groups, emails)) ==> Admits(env, OidcGuard(d, groups, emails));
    case DenyRoute =>
      assert Wants(c, ing, m, DenyPath(Annotation(ing, DENY_KEY))) ==> Admits(env, DenyPath(Annotation(ing, DENY_KEY)));
    case _ =>
  }

  lemma GuardsPassExactly(env: Env, ms: seq<Middleware>)
    ensures GuardsPass(env, ms) <==> forall x :: x in ms && IsGuard(x) ==> Admits(env, x)
  {
    forall x ensures Admits(env, x) <==> Passes(env, x) {
      AdmitsIsPasses(env, x);
    }
    if GuardsPass(env, ms) {
      forall x | x in ms && IsGuard(x) ensures Admits(env, x) {
        var i :| 0 <= i < |ms| && ms[i] == x;
      }
    }
  }

  lemma ShippedMeets(
    env: Env, c: Cluster, ing: Ingress, https: bool, auth: map<string, ForwardAuthConf>, clients: set<string>,
    domains: map<string, string>
  )
    ensures (forall m :: m in ShippedModules(https, auth, clients, domains) ==> Meets(env, c, ing, m))
       <==> MeetsAnnotations(env, c, ing, https, auth)
  {
    var ms := ShippedModules(https, auth, clients, domains);
    OidcMeets(env, c, ing, clients, domains);
    assert ms[0] in ms && ms[1] in ms && ms[2] in ms && ms[3] in ms && ms[4] in ms && ms[5] in ms;
    if MeetsAnnotations(env, c, ing, https, auth) {
      forall m | m in ms ensures Meets(env, c, ing, m) {
        ShippedIsGuardOrFree(env, c, ing, https, auth, clients, domains, m);
      }
    }
  }

  lemma ShippedIsGuardOrFree(
    env: Env, c: Cluster, ing: Ingress, https: bool, auth: map<string, ForwardAuthConf>, clients: set<string>,
    domains: map<string, string>, m: Module
  )
    requires m in ShippedModules(https, auth, clients, domains)
    ensures m in {EnforceHttps(https), IpAuth, BasicAuthModule, SubrequestAuth(auth), Module.Oidc(clients, domains), DenyRoute}
            || Meets(env, c, ing, m)
  {
  }

  lemma OidcMeets(env: Env, c: Cluster, ing: Ingress, clients: set<string>, domains: map<string, string>)
    ensures Meets(env, c, ing, Module.Oidc(clients, domains)) <==> Meets(env, c, ing, Module.Oidc({}, map[]))
  {
  }

  lemma DeclaredGuardsPass(env: Env, libs: Libs, conf: ControllerConf, c: Cluster, ing: Ingress, h: string, r: Route)
    requires r in Declared(libs, conf, c, ing, ing.rules, h)
    ensures GuardsPass(env, r.middlewares) <==> forall m :: m in conf.modules ==> Meets(env, c, ing, m)
  {
    GuardsPassExactly(env, r.middlewares);
    forall x ensures x in r.middlewares <==> exists m :: m in conf.modules && Wants(c, ing, m, x) {
      GuardsOnRoutes(libs, conf, c, ing, h, r, x);
    }
    forall m ensures WantedAdmits(env, c, ing, m) <==> Meets(env, c, ing, m) {
      MeetsExactly(env, c, ing, m);
    }
  }

  /** A route declared under the shipped modules: its upstream is contacted exactly when the request meets every
      condition of the ingress's annotations and is no upgrade, and a websocket is dialled to it exactly when it meets
      them and is one. */
  lemma ReachedExactly(
    env: Env, libs: Libs, conf: ControllerConf, c: Cluster, ing: Ingress, h: string, r: Route,
    https: bool, auth: map<string, ForwardAuthConf>, clients: set<string>, domains: map<string, string>
  )
    requires conf.modules == ShippedModules(https, auth, clients, domains)
    requires r in Declared(libs, conf, c, ing, ing.rules, h) && env.requestOk
    ensures var events := ProxyRoute(env, r, UNWRITTEN).w.events;
            && (Contact in events <==> MeetsAnnotations(env, c, ing, https, auth) && !env.upgrade)
            && (WebsocketDial in events <==> MeetsAnnotations(env, c, ing, https, auth) && env.upgrade)
  {
    Server.ShippedInOrder(https, auth, clients, domains);
    Server.DeclaredRouteGates(libs, conf, c, ing, h, r, env);
    DeclaredGuardsPass(env, libs, conf, c, ing, h, r);
    ShippedMeets(env, c, ing, https, auth, clients, domains);
  }

  lemma DeclaredAdmit(env: Env, libs: Libs, conf: ControllerConf, c: Cluster, ing: Ingress, h: string, r: Route)
    requires r in Declared(libs, conf, c, ing, ing.rules, h) && !env.upgrade
    requires forall m :: m in conf.modules ==> Meets(env, c, ing, m)
    ensures AllAdmit(env, r.middlewares)
  {
    DeclaredGuardsPass(env, libs, conf, c, ing, h, r);
    GuardsPassExactly(env, r.middlewares);
  }

  /** A request that is served by a route declared under the shipped modules. It reaches the upstream exactly when it
      meets the annotations, and then the client gets the answer of the upstream. */
  lemma AnsweredExactly(
    env: Env, served: Aggregate.ProxyConf, libs: Libs, conf: ControllerConf, c: Cluster, ing: Ingress, h: string, r: Route,
    https: bool, auth: map<string, ForwardAuthConf>, clients: set<string>, domains: map<string, string>
  )
    requires env.asciiHost.Some? && Aggregate.Resolve(served.hosts, env.asciiHost.value, env.path) == Some(Routing.Hit(r))
    requires AllAdmit(env, served.requestMiddlewares) && env.requestOk
    requires conf.modules == ShippedModules(https, auth, clients, domains)
    requires r in Declared(libs, conf, c, ing, ing.rules, h)
    ensures var events := Serve(env, Some(served)).w.events;
            var meets := MeetsAnnotations(env, c, ing, https, auth);
            && (Contact in events <==> meets && !env.upgrade)
            && (WebsocketDial in events <==> meets && env.upgrade)
            && (meets && !env.upgrade ==> AnswerOfUpstream(env, events))
  {
    ReachedExactly(env, libs, conf, c, ing, h, r, https, auth, clients, domains);
    ServedOnRoute(env, served, r);
    if MeetsAnnotations(env, c, ing, https, auth) && !env.upgrade {
      ShippedMeets(env, c, ing, https, auth, clients, domains);
      DeclaredAdmit(env, libs, conf, c, ing, h, r);
      ServedByUpstream(env, served, r);
      UpstreamAnswer(env);
    }
  }

  /** The client gets the status of the upstream, 502 when there is no answer and 413 for a request that is too large. */
  ghost predicate AnswerOfUpstream(env: Env, events: seq<Event>) {
    && (!env.connectOk || env.trip == TripError ==> events == [Contact] + Page(env, 502))
    && (env.connectOk && env.trip == TooLarge ==> events == [Contact, Header(413)])
    && (env.connectOk && env.trip.Response? && env.trip.code >= 100 ==> events == [Contact, Header(env.trip.code), Body])
    && (env.connectOk && env.trip.Response? && env.trip.code < 100 ==> events == [Contact])
  }

  lemma ServedOnRoute(env: Env, served: Aggregate.ProxyConf, r: Route)
    requires env.asciiHost.Some? && Aggregate.Resolve(served.hosts, env.asciiHost.value, env.path) == Some(Routing.Hit(r))
    requires AllAdmit(env, served.requestMiddlewares)
    ensures var events, there := Serve(env, Some(served)).w.events, ProxyRoute(env, r, UNWRITTEN).w.events;
            (Contact in events <==> Contact in there) && (WebsocketDial in events <==> WebsocketDial in there)
  {
    AdmittedExactly(env, served.requestMiddlewares);
    ChainDecided(env, served.requestMiddlewares, UNWRITTEN, Pipeline.Route(env, served));
    RecoverKeeps(env, ProxyRoute(env, r, UNWRITTEN));
  }

  lemma RecoverKeeps(env: Env, out: Out)
    ensures Contact in Recover(env, out).w.events <==> Contact in out.w.events
    ensures WebsocketDial in Recover(env, out).w.events <==> WebsocketDial in out.w.events
  {
  }

  // In front of all routes

  /** Module m puts x in front of every route. */
  ghost predicate WantsAtEntry(m: Module, x: Middleware) {
    (m == EnforceHttps(true) && x == HttpsRedirect(true)) || (m.Oidc? && x == OidcCallback(m.callbackDomains))
  }

  lemma {:induction false} EntryExactly(ms: seq<Module>, out: seq<Middleware>, x: Middleware)
    ensures Aggregate.ConnectionModules(ms, out).Ok?
    ensures x in Aggregate.ConnectionModules(ms, out).value <==> x in out || exists m :: m in ms && WantsAtEntry(m, x)
    decreases |ms|
  {
    Aggregate.ConnectionModulesSucceed(ms, out);
    if ms != [] {
      var got := Aggregate.RequestMiddleware(ms[0]).value;
      assert got == Some(x) <==> WantsAtEntry(ms[0], x);
      EntryExactly(ms[1..], Appended(out, got), x);
      assert forall m :: m in ms <==> m == ms[0] || m in ms[1..];
    }
  }

  /** Under the shipped modules a request gets as far as the routes exactly when it need not be redirected to TLS and
      is no login callback. */
  lemma EntryAdmits(
    env: Env, https: bool, auth: map<string, ForwardAuthConf>, clients: set<string>, domains: map<string, string>
  )
    ensures var entry := Aggregate.ConnectionModules(ShippedModules(https, auth, clients, domains), []);
            entry.Ok? && (AllAdmit(env, entry.value) <==> PastEntry(env, https, domains))
  {
    var ms := ShippedModules(https, auth, clients, domains);
    EntryExactly(ms, [], OidcCallback(domains));
    var entry := Aggregate.ConnectionModules(ms, []).value;
    forall x ensures x in entry <==> x == OidcCallback(domains) || (https && x == HttpsRedirect(true)) {
      ShippedEntry(https, auth, clients, domains, x);
    }
    assert OidcCallback(domains) in entry && (https <==> HttpsRedirect(true) in entry);
    assert Admits(env, OidcCallback(domains)) <==> !(env.host in domains && env.get && env.path == "/_oidc/callback");
    assert Admits(env, HttpsRedirect(true)) <==> env.tls;
  }

  lemma ShippedEntry(
    https: bool, auth: map<string, ForwardAuthConf>, clients: set<string>, domains: map<string, string>, x: Middleware
  )
    ensures var entry := Aggregate.ConnectionModules(ShippedModules(https, auth, clients, domains), []);
            entry.Ok? && (x in entry.value <==> x == OidcCallback(domains) || (https && x == HttpsRedirect(true)))
  {
    var ms := ShippedModules(https, auth, clients, domains);
    EntryExactly(ms, [], x);
    assert ms[0] in ms && ms[4] in ms;
    assert WantsAtEntry(ms[4], x) <==> x == OidcCallback(domains);
    assert WantsAtEntry(ms[0], x) <==> https && x == HttpsRedirect(true);
  }

  ghost predicate PastEntry(env: Env, https: bool, domains: map<string, string>) {
    (https ==> env.tls) && !(env.host in domains && env.get && env.path == "/_oidc/callback")
  }
}
