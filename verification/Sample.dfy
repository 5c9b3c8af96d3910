/** A small cluster on which the losses of the other modules are shown: one
    ingress with one backend, a default certificate and one TCP proxy. */
module Sample {
  import opened Prelude
  import opened Kube
  import opened Converter
  import opened State
  import opened Common

  const SITE := Name("default", "site")
  const WEB := Name("default", "web")
  const DB := Name("default", "db")
  const CERT := Name("default", "tls")

  const BACKEND := ServiceBackend("web", "", 80)
  const SITE_PATH := HttpPath("/", Some("Prefix"), Some(BACKEND))
  const SITE_RULE := Rule("example.com", [SITE_PATH])
  const SITE_INGRESS := Ingress(SITE, Some("public"), map[], [SITE_RULE], [])
  const WEB_SERVICE := Service("10.0.0.1", [ServicePort("http", 80)])
  const DB_SERVICE := Service("10.0.0.2", [ServicePort("pg", 5432)])
  const CERT_SECRET := Secret(map["tls.crt" := "old", "tls.key" := "key"])
  const NEW_SECRET := Secret(map["tls.crt" := "new", "tls.key" := "key"])
  const CLUSTER := Cluster(
    map[SITE := SITE_INGRESS], map["public" := "sample"], map[WEB := WEB_SERVICE, DB := DB_SERVICE], map[CERT := CERT_SECRET])

  const DB_PROXY := TcpConf(5432, DB, "pg")
  const CONF := ControllerConf(ShippedModules(false, map[], {}, map[]), 0, None, "tls", [], [DB_PROXY], [], None)

  function SampleEnv(): Env {
    var yes := (s: string) => true;
    Env(Libs((s: string) => Some(s), yes, yes, yes, yes, (a: string, b: string) => true), "sample", "default")
  }

  // Compiling an ingress without annotations

  lemma PlainModule(libs: Libs, c: Cluster, m: Module, acc: IngressConf, ing: Ingress)
    requires ing.annotations == map[]
    ensures ModuleMiddleware(libs, c, m, acc, ing).Ok? && ModuleMiddleware(libs, c, m, acc, ing).value.1 == acc
  {
  }

  lemma {:induction false} PlainMiddlewares(
    libs: Libs, c: Cluster, ms: seq<Module>, out: seq<Middleware>, acc: IngressConf, ing: Ingress
  )
    requires ing.annotations == map[]
    ensures Middlewares(libs, c, ms, out, acc, ing).Ok? && Middlewares(libs, c, ms, out, acc, ing).value.1 == acc
    decreases |ms|
  {
    if ms != [] {
      PlainModule(libs, c, ms[0], acc, ing);
      var got := ModuleMiddleware(libs, c, ms[0], acc, ing).value;
      PlainMiddlewares(libs, c, ms[1..], Appended(out, got.0), got.1, ing);
    }
  }

  /** An ingress of one path, without annotations or TLS, compiles whenever its route can be made. */
  lemma OnePathCompiles(
    libs: Libs, conf: ControllerConf, c: Cluster, ing: Ingress, host: string, p: HttpPath, b: ServiceBackend, svc: Service
  )
    requires ing.annotations == map[] && ing.tls == [] && ing.rules == [Rule(host, [p])] && p.service == Some(b)
    requires Lookup(c.services, Name(ing.id.namespace, b.name)) == Some(svc)
    requires forall ms :: MakeRoute(libs, conf, svc, ms, ing, p, b).Ok?
    ensures Compile(libs, conf, c, ing).Ok?
    ensures Compile(libs, conf, c, ing).value.usedSecrets == []
    ensures Compile(libs, conf, c, ing).value.usedServices == [Name(ing.id.namespace, b.name)]
  {
    PlainMiddlewares(libs, c, conf.modules, [], EMPTY_CONF, ing);
    var acc := AddPath(libs, conf, c, EMPTY_CONF, ing, host, p);
    assert acc.Ok? && acc.value.usedSecrets == [] && acc.value.usedServices == [Name(ing.id.namespace, b.name)];
    assert [p][1..] == [] && ing.rules[1..] == [];
    assert AddPaths(libs, conf, c, EMPTY_CONF, ing, host, [p]) == acc;
    assert AddRules(libs, conf, c, EMPTY_CONF, ing, ing.rules) == acc;
  }

  lemma SampleRoute(conf: ControllerConf, ms: seq<Middleware>)
    ensures MakeRoute(SampleEnv().libs, conf, WEB_SERVICE, ms, SITE_INGRESS, SITE_PATH, BACKEND).Ok?
  {
  }

  /** The ingress of the sample compiles under every configuration. */
  lemma SampleCompiles(conf: ControllerConf)
    ensures Compile(SampleEnv().libs, conf, CLUSTER, SITE_INGRESS).Ok?
    ensures Compile(SampleEnv().libs, conf, CLUSTER, SITE_INGRESS).value.usedSecrets == []
    ensures Compile(SampleEnv().libs, conf, CLUSTER, SITE_INGRESS).value.usedServices == [WEB]
  {
    forall ms ensures MakeRoute(SampleEnv().libs, conf, WEB_SERVICE, ms, SITE_INGRESS, SITE_PATH, BACKEND).Ok? {
      SampleRoute(conf, ms);
    }
    OnePathCompiles(SampleEnv().libs, conf, CLUSTER, SITE_INGRESS, "example.com", SITE_PATH, BACKEND, WEB_SERVICE);
  }

  /** What the ingress compiles to under CONF. */
  function SampleCompiled(): IngressConf {
    match Compile(SampleEnv().libs, CONF, CLUSTER, SITE_INGRESS)
    case Ok(compiled) => compiled
    case Err => EMPTY_CONF
  }

  lemma SampleEndpoint(c: Cluster)
    requires Lookup(c.services, DB) == Some(DB_SERVICE)
    ensures AddrPort(SampleEnv().libs, c, DB_PROXY) == Ok(Endpoint("10.0.0.2", 5432))
  {
    assert PortNamed(DB_SERVICE.ports, "pg") == Some(5432);
  }

  /** The cluster holds what the common reconcile reads. */
  lemma SampleLoads()
    ensures CommonLoads(SampleEnv(), CONF, CLUSTER)
    ensures DefaultTls(SampleEnv(), CONF, CLUSTER) == Ok(Some(Certificate("old", "key")))
  {
    SampleEndpoint(CLUSTER);
    TcpExactly(SampleEnv(), CONF, CLUSTER, []);
  }
}
