/** Exactly what a compiled ingress depends on, and so exactly when the two
    changes that requeue nothing leave a stale entry behind. */
module Staleness {
  import opened Prelude
  import opened Kube
  import opened Routing
  import opened Converter
  import opened State
  import opened Reconciler
  import opened Sample

  /** A controller configuration together with a cluster. */
  datatype Input = Input(conf: ControllerConf, c: Cluster)

  function CompileAt(libs: Libs, x: Input, ing: Ingress): Result<IngressConf> {
    Compile(libs, x.conf, x.c, ing)
  }

  function RouteAt(libs: Libs, x: Input, ing: Ingress, p: HttpPath): seq<Route> {
    RouteFor(libs, x.conf, x.c, ing, p)
  }

  ghost predicate SamePaths(libs: Libs, x: Input, y: Input, ing: Ingress, ps: seq<HttpPath>) {
    forall j :: 0 <= j < |ps| ==> RouteAt(libs, x, ing, ps[j]) == RouteAt(libs, y, ing, ps[j])
  }

  /** Every path declares the same route, or none, under both inputs. */
  ghost predicate SameRoutes(libs: Libs, x: Input, y: Input, ing: Ingress, rules: seq<Rule>) {
    forall i :: 0 <= i < |rules| ==> SamePaths(libs, x, y, ing, rules[i].paths)
  }

  // Equal routes compile alike

  /** The secrets a chain was built from: one read per basic-auth middleware. */
  function ChainReads(ing: Ingress, ms: seq<Middleware>): seq<Name> {
    if ms == [] then []
    else
      ChainReads(ing, ms[..|ms| - 1])
      + (if ms[|ms| - 1].BasicAuth? then [Name(ing.id.namespace, Annotation(ing, BASIC_SECRET_KEY))] else [])
  }

  lemma ModuleReadsAreChainReads(
    libs: Libs, c: Cluster, m: Module, out: seq<Middleware>, acc: IngressConf, ing: Ingress, start: IngressConf
  )
    requires ModuleMiddleware(libs, c, m, acc, ing).Ok?
    requires acc == start.(usedSecrets := start.usedSecrets + ChainReads(ing, out))
    ensures var got := ModuleMiddleware(libs, c, m, acc, ing).value;
            got.1 == start.(usedSecrets := start.usedSecrets + ChainReads(ing, Appended(out, got.0)))
  {
    var got := ModuleMiddleware(libs, c, m, acc, ing).value;
    assert got.0.Some? ==> Appended(out, got.0)[..|out|] == out;
  }

  lemma {:induction false} MiddlewareReadsAreChainReads(
    libs: Libs, c: Cluster, ms: seq<Module>, out: seq<Middleware>, acc: IngressConf, ing: Ingress, start: IngressConf
  )
    requires Middlewares(libs, c, ms, out, acc, ing).Ok?
    requires acc == start.(usedSecrets := start.usedSecrets + ChainReads(ing, out))
    ensures var got := Middlewares(libs, c, ms, out, acc, ing).value;
            got.1 == start.(usedSecrets := start.usedSecrets + ChainReads(ing, got.0))
    decreases |ms|
  {
    if ms != [] {
      var got := ModuleMiddleware(libs, c, ms[0], acc, ing).value;
      var longer := Appended(out, got.0);
      ModuleReadsAreChainReads(libs, c, ms[0], out, acc, ing, start);
      MiddlewareReadsAreChainReads(libs, c, ms[1..], longer, got.1, ing, start);
    }
  }

  function Extended(acc: IngressConf, ing: Ingress, host: string, b: ServiceBackend, route: Route): IngressConf {
    acc.(usedSecrets := acc.usedSecrets + ChainReads(ing, route.middlewares),
         usedServices := acc.usedServices + [Name(ing.id.namespace, b.name)],
         hosts := acc.hosts[host := Insert(RoutesOf(acc.hosts, host), route)])
  }

  /** What AddPath does, in terms of the route the path declares. */
  lemma PathByRoute(libs: Libs, x: Input, acc: IngressConf, ing: Ingress, host: string, p: HttpPath)
    ensures p.service.None? ==> AddPath(libs, x.conf, x.c, acc, ing, host, p) == Ok(acc)
    ensures p.service.Some? ==>
              (AddPath(libs, x.conf, x.c, acc, ing, host, p).Ok? <==> RouteAt(libs, x, ing, p) != [])
    ensures p.service.Some? && RouteAt(libs, x, ing, p) != [] ==>
              AddPath(libs, x.conf, x.c, acc, ing, host, p)
              == Ok(Extended(acc, ing, host, p.service.value, RouteAt(libs, x, ing, p)[0]))
  {
    if p.service.Some? {
      MiddlewaresIgnoreAcc(libs, x.c, x.conf.modules, [], acc, EMPTY_CONF, ing);
      if Middlewares(libs, x.c, x.conf.modules, [], acc, ing).Ok? {
        assert acc.usedSecrets + ChainReads(ing, []) == acc.usedSecrets;
        MiddlewareReadsAreChainReads(libs, x.c, x.conf.modules, [], acc, ing, acc);
      }
    }
  }

  lemma {:induction false} SamePathsAddAlike(
    libs: Libs, x: Input, y: Input, acc: IngressConf, ing: Ingress, host: string, ps: seq<HttpPath>
  )
    requires SamePaths(libs, x, y, ing, ps)
    ensures AddPaths(libs, x.conf, x.c, acc, ing, host, ps) == AddPaths(libs, y.conf, y.c, acc, ing, host, ps)
    decreases |ps|
  {
    if ps != [] {
      PathByRoute(libs, x, acc, ing, host, ps[0]);
      PathByRoute(libs, y, acc, ing, host, ps[0]);
      var one := AddPath(libs, x.conf, x.c, acc, ing, host, ps[0]);
      assert AddPath(libs, y.conf, y.c, acc, ing, host, ps[0]) == one;
      if one.Ok? {
        SamePathsAddAlike(libs, x, y, one.value, ing, host, ps[1..]);
      }
    }
  }

  lemma {:induction false} SameRoutesAddAlike(
    libs: Libs, x: Input, y: Input, acc: IngressConf, ing: Ingress, rules: seq<Rule>
  )
    requires SameRoutes(libs, x, y, ing, rules)
    ensures AddRules(libs, x.conf, x.c, acc, ing, rules) == AddRules(libs, y.conf, y.c, acc, ing, rules)
    decreases |rules|
  {
    if rules != [] {
      SamePathsAddAlike(libs, x, y, acc, ing, rules[0].host, rules[0].paths);
      var one := AddPaths(libs, x.conf, x.c, acc, ing, rules[0].host, rules[0].paths);
      if one.Ok? {
        SameRoutesAddAlike(libs, x, y, one.value, ing, rules[1..]);
      }
    }
  }

  lemma {:induction false} TlsBySecrets(libs: Libs, c: Cluster, d: Cluster, acc: IngressConf, ing: Ingress, items: seq<TlsItem>)
    requires c.secrets == d.secrets
    ensures AddTls(libs, c, acc, ing, items) == AddTls(libs, d, acc, ing, items)
    decreases |items|
  {
    if items != [] {
      var n := Name(ing.id.namespace, items[0].secretName);
      var cert := CertificateFrom(libs, c, n);
      TlsBySecrets(libs, c, d, acc, ing, items[1..]);
      if cert.Ok? {
        TlsBySecrets(libs, c, d,
                     WithCert(acc, n, items[0].hosts, cert.value),
                     ing, items[1..]);
      }
    }
  }

  // Compiled alike, equal routes

  /** Both inputs declare the same number of routes, of the same ranks, for these paths. */
  lemma {:induction false} PathsShape(
    libs: Libs, x: Input, y: Input, a: IngressConf, b: IngressConf, ing: Ingress, host: string, ps: seq<HttpPath>
  )
    requires AddPaths(libs, x.conf, x.c, a, ing, host, ps).Ok? && AddPaths(libs, y.conf, y.c, b, ing, host, ps).Ok?
    ensures var d, e := DeclaredPaths(libs, x.conf, x.c, ing, ps), DeclaredPaths(libs, y.conf, y.c, ing, ps);
            SameRanks(d, e) && (d == e ==> SamePaths(libs, x, y, ing, ps))
    decreases |ps|
  {
    if ps != [] {
      PathByRoute(libs, x, a, ing, host, ps[0]);
      PathByRoute(libs, y, b, ing, host, ps[0]);
      PathsShape(libs, x, y, AddPath(libs, x.conf, x.c, a, ing, host, ps[0]).value,
                 AddPath(libs, y.conf, y.c, b, ing, host, ps[0]).value, ing, host, ps[1..]);
      RoutesShape(libs, x, y, ing, ps[0]);
      ConcatSplits(RouteAt(libs, x, ing, ps[0]), RouteAt(libs, y, ing, ps[0]),
                   DeclaredPaths(libs, x.conf, x.c, ing, ps[1..]), DeclaredPaths(libs, y.conf, y.c, ing, ps[1..]));
      SamePathsCons(libs, x, y, ing, ps);
    }
  }

  lemma SamePathsCons(libs: Libs, x: Input, y: Input, ing: Ingress, ps: seq<HttpPath>)
    requires ps != []
    ensures RouteAt(libs, x, ing, ps[0]) == RouteAt(libs, y, ing, ps[0]) && SamePaths(libs, x, y, ing, ps[1..]) ==>
              SamePaths(libs, x, y, ing, ps)
  {
    assert forall j :: 1 <= j < |ps| ==> ps[j] == ps[1..][j - 1];
  }

  lemma RoutesShape(libs: Libs, x: Input, y: Input, ing: Ingress, p: HttpPath)
    requires p.service.Some? ==> RouteAt(libs, x, ing, p) != [] && RouteAt(libs, y, ing, p) != []
    ensures SameRanks(RouteAt(libs, x, ing, p), RouteAt(libs, y, ing, p))
  {
  }

  lemma ConcatSplits(a: seq<Route>, b: seq<Route>, c: seq<Route>, d: seq<Route>)
    requires SameRanks(a, b) && SameRanks(c, d)
    ensures SameRanks(a + c, b + d)
    ensures a + c == b + d ==> a == b && c == d
  {
    assert a == (a + c)[..|a|] && c == (a + c)[|a|..];
    assert b == (b + d)[..|b|] && d == (b + d)[|b|..];
  }

  /** The rules for one host declare the same routes under both inputs. */
  ghost predicate SameFor(libs: Libs, x: Input, y: Input, ing: Ingress, rules: seq<Rule>, h: string) {
    forall i :: 0 <= i < |rules| && rules[i].host == h ==> SamePaths(libs, x, y, ing, rules[i].paths)
  }

  lemma {:induction false} RulesShape(
    libs: Libs, x: Input, y: Input, a: IngressConf, b: IngressConf, ing: Ingress, rules: seq<Rule>, h: string
  )
    requires AddRules(libs, x.conf, x.c, a, ing, rules).Ok? && AddRules(libs, y.conf, y.c, b, ing, rules).Ok?
    ensures var d, e := Declared(libs, x.conf, x.c, ing, rules, h), Declared(libs, y.conf, y.c, ing, rules, h);
            SameRanks(d, e) && (d == e ==> SameFor(libs, x, y, ing, rules, h))
    decreases |rules|
  {
    if rules != [] {
      var host, ps := rules[0].host, rules[0].paths;
      PathsShape(libs, x, y, a, b, ing, host, ps);
      RulesShape(libs, x, y, AddPaths(libs, x.conf, x.c, a, ing, host, ps).value,
                 AddPaths(libs, y.conf, y.c, b, ing, host, ps).value, ing, rules[1..], h);
      ConcatSplits(if host == h then DeclaredPaths(libs, x.conf, x.c, ing, ps) else [],
                   if host == h then DeclaredPaths(libs, y.conf, y.c, ing, ps) else [],
                   Declared(libs, x.conf, x.c, ing, rules[1..], h), Declared(libs, y.conf, y.c, ing, rules[1..], h));
      SameForCons(libs, x, y, ing, rules, h);
    }
  }

  lemma SameForCons(libs: Libs, x: Input, y: Input, ing: Ingress, rules: seq<Rule>, h: string)
    requires rules != []
    ensures (rules[0].host == h ==> SamePaths(libs, x, y, ing, rules[0].paths)) && SameFor(libs, x, y, ing, rules[1..], h) ==>
              SameFor(libs, x, y, ing, rules, h)
  {
    assert forall i :: 1 <= i < |rules| ==> rules[i] == rules[1..][i - 1];
  }

  /** An ingress that compiles under x compiles to the same configuration, with the same recorded reads, under any y
      with the same secrets exactly when each of its paths declares the same route under both. */
  lemma CompiledSameExactly(libs: Libs, x: Input, y: Input, ing: Ingress)
    requires CompileAt(libs, x, ing).Ok? && x.c.secrets == y.c.secrets
    ensures CompileAt(libs, y, ing) == CompileAt(libs, x, ing) <==> SameRoutes(libs, x, y, ing, ing.rules)
  {
    if SameRoutes(libs, x, y, ing, ing.rules) {
      SameRoutesAddAlike(libs, x, y, EMPTY_CONF, ing, ing.rules);
      TlsBySecrets(libs, x.c, y.c, AddRules(libs, x.conf, x.c, EMPTY_CONF, ing, ing.rules).value, ing, ing.tls);
    }
    if CompileAt(libs, y, ing) == CompileAt(libs, x, ing) {
      forall i | 0 <= i < |ing.rules| ensures SamePaths(libs, x, y, ing, ing.rules[i].paths) {
        var h := ing.rules[i].host;
        CompiledHost(libs, x.conf, x.c, ing, h);
        CompiledHost(libs, y.conf, y.c, ing, h);
        RulesShape(libs, x, y, EMPTY_CONF, EMPTY_CONF, ing, ing.rules, h);
        InsertAllInjective(Declared(libs, x.conf, x.c, ing, ing.rules, h), Declared(libs, y.conf, y.c, ing, ing.rules, h));
      }
    }
  }

  // Exactly what is recorded

  ghost predicate BacksPath(ing: Ingress, ps: seq<HttpPath>, n: Name) {
    exists j :: 0 <= j < |ps| && ps[j].service.Some? && n == Name(ing.id.namespace, ps[j].service.value.name)
  }

  ghost predicate Backs(ing: Ingress, rules: seq<Rule>, n: Name) {
    exists i :: 0 <= i < |rules| && BacksPath(ing, rules[i].paths, n)
  }

  lemma {:induction false} PathsRecord(libs: Libs, x: Input, acc: IngressConf, ing: Ingress, host: string, ps: seq<HttpPath>, n: Name)
    requires AddPaths(libs, x.conf, x.c, acc, ing, host, ps).Ok?
    ensures n in AddPaths(libs, x.conf, x.c, acc, ing, host, ps).value.usedServices
       <==> n in acc.usedServices || BacksPath(ing, ps, n)
    decreases |ps|
  {
    if ps != [] {
      PathByRoute(libs, x, acc, ing, host, ps[0]);
      var acc1 := AddPath(libs, x.conf, x.c, acc, ing, host, ps[0]).value;
      PathsRecord(libs, x, acc1, ing, host, ps[1..], n);
      assert forall j :: 1 <= j < |ps| ==> ps[j] == ps[1..][j - 1];
      assert BacksPath(ing, ps, n) <==>
        (ps[0].service.Some? && n == Name(ing.id.namespace, ps[0].service.value.name)) || BacksPath(ing, ps[1..], n);
    }
  }

  lemma {:induction false} RulesRecord(libs: Libs, x: Input, acc: IngressConf, ing: Ingress, rules: seq<Rule>, n: Name)
    requires AddRules(libs, x.conf, x.c, acc, ing, rules).Ok?
    ensures n in AddRules(libs, x.conf, x.c, acc, ing, rules).value.usedServices
       <==> n in acc.usedServices || Backs(ing, rules, n)
    decreases |rules|
  {
    if rules != [] {
      PathsRecord(libs, x, acc, ing, rules[0].host, rules[0].paths, n);
      var acc1 := AddPaths(libs, x.conf, x.c, acc, ing, rules[0].host, rules[0].paths).value;
      RulesRecord(libs, x, acc1, ing, rules[1..], n);
      assert forall i :: 1 <= i < |rules| ==> rules[i] == rules[1..][i - 1];
      assert Backs(ing, rules, n) <==> BacksPath(ing, rules[0].paths, n) || Backs(ing, rules[1..], n);
    }
  }

  lemma {:induction false} TlsRecords(libs: Libs, c: Cluster, acc: IngressConf, ing: Ingress, items: seq<TlsItem>)
    requires AddTls(libs, c, acc, ing, items).Ok?
    ensures AddTls(libs, c, acc, ing, items).value.usedServices == acc.usedServices
    decreases |items|
  {
    if items != [] {
      if items[0].secretName == "" {
        TlsRecords(libs, c, acc, ing, items[1..]);
      } else {
        var n := Name(ing.id.namespace, items[0].secretName);
        var cert := CertificateFrom(libs, c, n).value;
        TlsRecords(libs, c,
                   WithCert(acc, n, items[0].hosts, cert),
                   ing, items[1..]);
      }
    }
  }

  /** The services recorded for a compiled ingress are exactly its backends. */
  lemma RecordedServices(libs: Libs, x: Input, ing: Ingress, n: Name)
    requires CompileAt(libs, x, ing).Ok?
    ensures n in CompileAt(libs, x, ing).value.usedServices <==> Backs(ing, ing.rules, n)
  {
    RulesRecord(libs, x, EMPTY_CONF, ing, ing.rules, n);
    TlsRecords(libs, x.c, AddRules(libs, x.conf, x.c, EMPTY_CONF, ing, ing.rules).value, ing, ing.tls);
  }

  // Service changes

  function EndpointOf(libs: Libs, c: Cluster, ing: Ingress, b: ServiceBackend): Option<Endpoint> {
    var name := Name(ing.id.namespace, b.name);
    if name !in c.services then None
    else
      match libs.parseAddr(c.services[name].clusterIP)
      case None => None
      case Some(addr) => Some(Endpoint(addr, ServicePortFor(c.services[name].ports, b) % 65536))
  }

  /** Every backend of the ingress resolves to the same address and port in c and d. */
  ghost predicate SameEndpoints(libs: Libs, c: Cluster, d: Cluster, ing: Ingress) {
    forall i, j :: 0 <= i < |ing.rules| && 0 <= j < |ing.rules[i].paths| && ing.rules[i].paths[j].service.Some? ==>
      EndpointOf(libs, c, ing, ing.rules[i].paths[j].service.value) == EndpointOf(libs, d, ing, ing.rules[i].paths[j].service.value)
  }

  lemma RouteByEndpoint(libs: Libs, conf: ControllerConf, c: Cluster, d: Cluster, ing: Ingress, p: HttpPath)
    requires c.secrets == d.secrets && p.service.Some? && RouteFor(libs, conf, c, ing, p) != []
    ensures RouteFor(libs, conf, d, ing, p) == RouteFor(libs, conf, c, ing, p)
       <==> EndpointOf(libs, d, ing, p.service.value) == EndpointOf(libs, c, ing, p.service.value)
  {
    MiddlewaresBySecrets(libs, c, d, conf.modules, [], EMPTY_CONF, ing);
  }

  lemma {:induction false} MiddlewaresBySecrets(
    libs: Libs, c: Cluster, d: Cluster, ms: seq<Module>, out: seq<Middleware>, acc: IngressConf, ing: Ingress
  )
    requires c.secrets == d.secrets
    ensures Middlewares(libs, c, ms, out, acc, ing) == Middlewares(libs, d, ms, out, acc, ing)
    decreases |ms|
  {
    if ms != [] {
      var got := ModuleMiddleware(libs, c, ms[0], acc, ing);
      assert ModuleMiddleware(libs, d, ms[0], acc, ing) == got;
      if got.Ok? {
        MiddlewaresBySecrets(libs, c, d, ms[1..], Appended(out, got.value.0), got.value.1, ing);
      }
    }
  }

  /** A path that declares nothing stops the compilation. */
  lemma {:induction false} PathsDeclare(libs: Libs, x: Input, acc: IngressConf, ing: Ingress, host: string, ps: seq<HttpPath>)
    requires AddPaths(libs, x.conf, x.c, acc, ing, host, ps).Ok?
    ensures forall j :: 0 <= j < |ps| && ps[j].service.Some? ==> RouteAt(libs, x, ing, ps[j]) != []
    decreases |ps|
  {
    if ps != [] {
      PathByRoute(libs, x, acc, ing, host, ps[0]);
      PathsDeclare(libs, x, AddPath(libs, x.conf, x.c, acc, ing, host, ps[0]).value, ing, host, ps[1..]);
    }
  }

  lemma {:induction false} RulesDeclare(libs: Libs, x: Input, acc: IngressConf, ing: Ingress, rules: seq<Rule>)
    requires AddRules(libs, x.conf, x.c, acc, ing, rules).Ok?
    ensures forall i, j :: 0 <= i < |rules| && 0 <= j < |rules[i].paths| && rules[i].paths[j].service.Some? ==>
              RouteAt(libs, x, ing, rules[i].paths[j]) != []
    decreases |rules|
  {
    if rules != [] {
      PathsDeclare(libs, x, acc, ing, rules[0].host, rules[0].paths);
      RulesDeclare(libs, x, AddPaths(libs, x.conf, x.c, acc, ing, rules[0].host, rules[0].paths).value, ing, rules[1..]);
    }
  }

  /** What a compiled ingress takes from the services is exactly the endpoint of each backend. */
  lemma CompiledByEndpoints(libs: Libs, conf: ControllerConf, c: Cluster, d: Cluster, ing: Ingress)
    requires Compile(libs, conf, c, ing).Ok? && c.secrets == d.secrets
    ensures Compile(libs, conf, d, ing) == Compile(libs, conf, c, ing) <==> SameEndpoints(libs, c, d, ing)
  {
    var x, y := Input(conf, c), Input(conf, d);
    CompiledSameExactly(libs, x, y, ing);
    RulesDeclare(libs, x, EMPTY_CONF, ing, ing.rules);
    forall i, j | 0 <= i < |ing.rules| && 0 <= j < |ing.rules[i].paths|
      ensures RouteAt(libs, x, ing, ing.rules[i].paths[j]) == RouteAt(libs, y, ing, ing.rules[i].paths[j])
         <==> (ing.rules[i].paths[j].service.Some? ==>
                 EndpointOf(libs, c, ing, ing.rules[i].paths[j].service.value)
                 == EndpointOf(libs, d, ing, ing.rules[i].paths[j].service.value))
    {
      if ing.rules[i].paths[j].service.Some? {
        RouteByEndpoint(libs, conf, c, d, ing, ing.rules[i].paths[j]);
      }
    }
    if SameRoutes(libs, x, y, ing, ing.rules) {
      forall i, j | 0 <= i < |ing.rules| && 0 <= j < |ing.rules[i].paths| && ing.rules[i].paths[j].service.Some?
        ensures EndpointOf(libs, c, ing, ing.rules[i].paths[j].service.value)
             == EndpointOf(libs, d, ing, ing.rules[i].paths[j].service.value)
      {
        assert SamePaths(libs, x, y, ing, ing.rules[i].paths);
      }
    }
  }

  ghost predicate Compiled(env: Env, s: Sys, n: Name) {
    n in s.cluster.ingresses && Relevant(env.controller, s.cluster.classes, s.cluster.ingresses[n])
  }

  /** A change of the upstream service is delivered without requeueing anything: the system is drained again, and an
      entry is still fresh exactly when it is not a compiled one or all its backends resolve as before. */
  lemma UpstreamChangeExactly(env: Env, s: Sys, service: Name, svc: Option<Service>, n: Name)
    requires Inv(env, s) && Drained(s) && IsUpstream(s.ctl, env.namespace, service)
    ensures var t := Next(env, Next(env, s, SetService(service, svc)), DeliverService(service));
            && Drained(t)
            && (Fresh(env, t, n) <==>
                !Compiled(env, s, n) || SameEndpoints(env.libs, s.cluster, t.cluster, s.cluster.ingresses[n]))
  {
    var t := Next(env, Next(env, s, SetService(service, svc)), DeliverService(service));
    assert t.queue == {} && t.pendingServices == {};
    assert Scheduled(s, n) || Fresh(env, s, n);
    if Compiled(env, s, n) {
      CompiledByEndpoints(env.libs, s.ctl.config.value, s.cluster, t.cluster, s.cluster.ingresses[n]);
    }
  }

  // Configuration changes

  ghost predicate HasBackend(ing: Ingress) {
    exists i, j :: 0 <= i < |ing.rules| && 0 <= j < |ing.rules[i].paths| && ing.rules[i].paths[j].service.Some?
  }

  /** The middleware chain the modules of conf give the ingress. */
  function Chain(libs: Libs, conf: ControllerConf, c: Cluster, ing: Ingress): Option<seq<Middleware>> {
    match Middlewares(libs, c, conf.modules, [], EMPTY_CONF, ing)
    case Err => None
    case Ok(got) => Some(got.0)
  }

  ghost predicate SameChainAndLimit(libs: Libs, conf: ControllerConf, other: ControllerConf, c: Cluster, ing: Ingress) {
    Chain(libs, conf, c, ing) == Chain(libs, other, c, ing) && MaxBody(conf, ing) == MaxBody(other, ing)
  }

  lemma RouteByConf(libs: Libs, conf: ControllerConf, other: ControllerConf, c: Cluster, ing: Ingress, p: HttpPath)
    requires p.service.Some? && RouteFor(libs, conf, c, ing, p) != []
    ensures RouteFor(libs, other, c, ing, p) == RouteFor(libs, conf, c, ing, p)
       <==> SameChainAndLimit(libs, conf, other, c, ing)
  {
  }

  /** What a compiled ingress takes from the controller configuration is exactly its middleware chain and its body
      limit, and nothing when it has no service backend. */
  lemma CompiledByConf(libs: Libs, conf: ControllerConf, other: ControllerConf, c: Cluster, ing: Ingress)
    requires Compile(libs, conf, c, ing).Ok?
    ensures Compile(libs, other, c, ing) == Compile(libs, conf, c, ing)
       <==> HasBackend(ing) ==> SameChainAndLimit(libs, conf, other, c, ing)
  {
    var x, y := Input(conf, c), Input(other, c);
    CompiledSameExactly(libs, x, y, ing);
    RulesDeclare(libs, x, EMPTY_CONF, ing, ing.rules);
    forall i, j | 0 <= i < |ing.rules| && 0 <= j < |ing.rules[i].paths|
      ensures RouteAt(libs, x, ing, ing.rules[i].paths[j]) == RouteAt(libs, y, ing, ing.rules[i].paths[j])
         <==> (ing.rules[i].paths[j].service.Some? ==> SameChainAndLimit(libs, conf, other, c, ing))
    {
      if ing.rules[i].paths[j].service.Some? {
        RouteByConf(libs, conf, other, c, ing, ing.rules[i].paths[j]);
      }
    }
    if SameRoutes(libs, x, y, ing, ing.rules) && HasBackend(ing) {
      var i, j :| 0 <= i < |ing.rules| && 0 <= j < |ing.rules[i].paths| && ing.rules[i].paths[j].service.Some?;
      assert SamePaths(libs, x, y, ing, ing.rules[i].paths);
    }
  }

  /** A configuration change requeues nothing: an entry stays fresh exactly when it is not a compiled one, has no
      service backend, or gets the same chain and body limit under both configurations. */
  lemma ConfigChangeExactly(env: Env, s: Sys, conf: ControllerConf, n: Name)
    requires Inv(env, s) && Drained(s) && s.ctl.config.Some?
    ensures var t := Next(env, s, SetConfig(conf));
            && Drained(t)
            && (Fresh(env, t, n) <==>
                !Compiled(env, s, n) || !HasBackend(s.cluster.ingresses[n])
                || SameChainAndLimit(env.libs, s.ctl.config.value, conf, s.cluster, s.cluster.ingresses[n]))
  {
    assert Scheduled(s, n) || Fresh(env, s, n);
    if Compiled(env, s, n) {
      CompiledByConf(env.libs, s.ctl.config.value, conf, s.cluster, s.cluster.ingresses[n]);
    }
  }

  // Both on runs from the start

  ghost predicate Reachable(env: Env, s: Sys) {
    exists states, steps :: IsRun(env, states, steps) && states[|states| - 1] == s
  }

  ghost predicate TamelyReachable(env: Env, s: Sys) {
    exists states, steps :: TameRun(env, states, steps) && states[|states| - 1] == s
  }

  lemma TameReach(env: Env, s: Sys, step: Step) returns (t: Sys)
    requires TamelyReachable(env, s) && Enabled(env, s, step) && Tame(env, s, step)
    ensures t == Next(env, s, step) && TamelyReachable(env, t)
  {
    t := Next(env, s, step);
    var states, steps :| TameRun(env, states, steps) && states[|states| - 1] == s;
    assert TameRun(env, states + [t], steps + [step]);
  }

  /** A last step that need not be tame. */
  lemma LastStep(env: Env, s: Sys, step: Step) returns (t: Sys)
    requires TamelyReachable(env, s) && Enabled(env, s, step)
    ensures t == Next(env, s, step) && Reachable(env, t)
  {
    t := Next(env, s, step);
    var states, steps :| TameRun(env, states, steps) && states[|states| - 1] == s;
    assert IsRun(env, states + [t], steps + [step]);
  }

  /** The cluster holds one ingress, of one class, which is this controller's. */
  ghost predicate Single(env: Env, cluster: Cluster, n: Name, c: string) {
    && cluster.ingresses.Keys == {n} && cluster.ingresses[n].id == n && cluster.ingresses[n].className == Some(c)
    && cluster.classes == map[c := env.controller]
  }

  lemma SingleStart(env: Env, conf: ControllerConf, cluster: Cluster, n: Name, c: string) returns (s: Sys)
    requires Single(env, cluster, n, c)
    ensures TamelyReachable(env, s)
    ensures s == Sys(cluster, INITIAL.(config := Some(conf)), {n}, {}, {}, [Created(c, env.controller)], None, {}, map[])
  {
    s := Sys(cluster, INITIAL, {n}, {}, {}, [Created(c, env.controller)], None, {}, map[]);
    assert ApplyAll(map[], s.pendingClasses) == Apply(map[], s.pendingClasses[0]) == cluster.classes;
    assert TameRun(env, [s], []);
    s := TameReach(env, s, SetConfig(conf));
  }

  function Known(env: Env, conf: ControllerConf, c: string): Ctl {
    INITIAL.(config := Some(conf), classes := map[c := env.controller])
  }

  lemma SingleScanned(env: Env, conf: ControllerConf, cluster: Cluster, n: Name, c: string) returns (s: Sys)
    requires Single(env, cluster, n, c)
    ensures TamelyReachable(env, s)
    ensures s == Sys(cluster, Known(env, conf, c), {n}, {}, {}, [], None, {n}, map[])
  {
    s := SingleStart(env, conf, cluster, n, c);
    s := TameReach(env, s, DeliverClass);
    assert s == Sys(cluster, Known(env, conf, c), {n}, {}, {}, [], Some(c), {}, map[]);
    s := TameReach(env, s, ScanClass(cluster));
    assert IngressesOfClass(cluster, c) == {n};
  }

  lemma SingleBegun(env: Env, conf: ControllerConf, cluster: Cluster, n: Name, c: string) returns (s: Sys)
    requires Single(env, cluster, n, c)
    ensures TamelyReachable(env, s)
    ensures s == Sys(cluster, Known(env, conf, c), {}, {}, {}, [], None, {}, map[n := Some(cluster.ingresses[n])])
  {
    s := SingleScanned(env, conf, cluster, n, c);
    s := TameReach(env, s, DeliverIngress(n));
    assert s == Sys(cluster, Known(env, conf, c), {}, {}, {}, [], None, {n}, map[]);
    s := TameReach(env, s, Begin(n, cluster));
  }

  lemma SeesStill(s: Sys)
    requires s.cluster.WellFormed()
    ensures SeesAll(s, Still(s.cluster))
  {
    forall k ensures Sees(s, Still(s.cluster)(k)) {
      assert Still(s.cluster)(k) == s.cluster;
    }
  }

  /** The ingress is delivered and compiled, and nothing is outstanding. */
  lemma SingleDrained(env: Env, conf: ControllerConf, cluster: Cluster, n: Name, c: string) returns (s: Sys)
    requires Single(env, cluster, n, c) && Compile(env.libs, conf, cluster, cluster.ingresses[n]).Ok?
    ensures TamelyReachable(env, s) && Inv(env, s) && Drained(s)
    ensures s.cluster == cluster && s.ctl.config == Some(conf)
  {
    s := SingleBegun(env, conf, cluster, n, c);
    CompileStill(env.libs, conf, cluster, cluster.ingresses[n]);
    assert FinishResult(env, s, n, Still(cluster)).Ok?;
    SeesStill(s);
    s := TameReach(env, s, Finish(n, Still(cluster)));
    var states, steps :| TameRun(env, states, steps) && states[|states| - 1] == s;
    QueueOrFresh(env, states, steps, |states| - 1);
  }

  /** Deleting an upstream service that backs the ingress leaves its entry stale with nothing outstanding. */
  lemma UpstreamDeleted(
    env: Env, conf: ControllerConf, cluster: Cluster, n: Name, c: string, service: Name, i: nat, j: nat
  ) returns (s: Sys)
    requires Single(env, cluster, n, c) && Compile(env.libs, conf, cluster, cluster.ingresses[n]).Ok?
    requires conf.upstreamService == Some(service.name) && service.namespace == env.namespace == n.namespace
    requires i < |cluster.ingresses[n].rules| && j < |cluster.ingresses[n].rules[i].paths|
    requires var b := cluster.ingresses[n].rules[i].paths[j].service; b.Some? && b.value.name == service.name
    ensures Reachable(env, s) && Drained(s) && !Fresh(env, s, n)
  {
    var ing := cluster.ingresses[n];
    s := SingleDrained(env, conf, cluster, n, c);
    UpstreamChangeExactly(env, s, service, None, n);
    RulesDeclare(env.libs, Input(conf, cluster), EMPTY_CONF, ing, ing.rules);
    assert EndpointOf(env.libs, cluster, ing, ing.rules[i].paths[j].service.value).Some?;
    s := TameReach(env, s, SetService(service, None));
    assert EndpointOf(env.libs, s.cluster, ing, ing.rules[i].paths[j].service.value).None?;
    s := LastStep(env, s, DeliverService(service));
  }

  const UPSTREAM_CONF := CONF.(upstreamService := Some("web"))

  /** A reachable drained state with a stale entry: the upstream service an ingress is backed by was deleted. */
  lemma UpstreamStaleReachable() returns (s: Sys)
    ensures Reachable(SampleEnv(), s) && Drained(s) && !Fresh(SampleEnv(), s, SITE)
  {
    SampleCompiles(UPSTREAM_CONF);
    s := UpstreamDeleted(SampleEnv(), UPSTREAM_CONF, CLUSTER, SITE, "public", WEB, 0, 0);
  }

  /** Changing the default body limit leaves every compiled ingress with a backend and no limit of its own stale. */
  lemma LimitChanged(env: Env, conf: ControllerConf, cluster: Cluster, n: Name, c: string, limit: int) returns (s: Sys)
    requires Single(env, cluster, n, c) && Compile(env.libs, conf, cluster, cluster.ingresses[n]).Ok?
    requires HasBackend(cluster.ingresses[n]) && MAX_BODY_KEY !in cluster.ingresses[n].annotations && limit != conf.maxBodySize
    ensures Reachable(env, s) && Drained(s) && !Fresh(env, s, n)
  {
    s := SingleDrained(env, conf, cluster, n, c);
    ConfigChangeExactly(env, s, conf.(maxBodySize := limit), n);
    s := LastStep(env, s, SetConfig(conf.(maxBodySize := limit)));
  }

  /** Another one: the default body limit of the controller configuration changed. */
  lemma ConfigStaleReachable() returns (s: Sys)
    ensures Reachable(SampleEnv(), s) && Drained(s) && !Fresh(SampleEnv(), s, SITE)
  {
    SampleCompiles(CONF);
    assert SITE_INGRESS.rules[0].paths[0].service.Some?;
    s := LimitChanged(SampleEnv(), CONF, CLUSTER, SITE, "public", 1);
  }
}
