/** Compiling one ingress into routes and certificates
    (pkg/controller/converter.go), recording what was read on the way. */
module Converter {
  import opened Prelude
  import opened Kube
  import opened Routing
  import Sizes
  import Text

  /** Library parsers whose outcome is a fixed but arbitrary function of their input. */
  datatype Libs = Libs(
    parseAddr: string -> Option<string>,
    isPrefix: string -> bool,
    isHtpasswd: string -> bool,
    isUrl: string -> bool,
    isPattern: string -> bool,
    isKeyPair: (string, string) -> bool)

  datatype ForwardAuthConf = ForwardAuthConf(authUrl: string, signInUrl: string)

  /** The shipped modules, with the configuration each instance holds. */
  datatype Module =
    | EnforceHttps(byDefault: bool)
    | IpAuth
    | BasicAuthModule
    | SubrequestAuth(configs: map<string, ForwardAuthConf>)
    | Oidc(clients: set<string>, callbackDomains: map<string, string>)
    | DenyRoute
    | Websocket
    | CustomHeader
    | UpstreamHeader

  /** The fixed activation order of modules/modules.go. */
  function ShippedModules(
    https: bool, auth: map<string, ForwardAuthConf>, clients: set<string>, domains: map<string, string>
  ): seq<Module> {
    [EnforceHttps(https), IpAuth, BasicAuthModule, SubrequestAuth(auth), Oidc(clients, domains),
     DenyRoute, Websocket, CustomHeader, UpstreamHeader]
  }

  datatype TcpConf = TcpConf(port: int, service: Name, portName: string)

  datatype ControllerConf = ControllerConf(
    modules: seq<Module>,
    maxBodySize: int,
    upstreamService: Option<string>,
    defaultTlsSecret: string,
    usedSecrets: seq<Name>,
    tcpProxy: seq<TcpConf>,
    trustedProxies: seq<string>,
    errorPage: Option<string>)

  /** IngressConfiguration as a value. */
  datatype IngressConf = IngressConf(
    usedSecrets: seq<Name>,
    usedServices: seq<Name>,
    hosts: map<string, seq<Route>>,
    certs: map<string, Certificate>)

  const EMPTY_CONF := IngressConf([], [], map[], map[])

  function Annotation(ing: Ingress, key: string): string {
    if key in ing.annotations then ing.annotations[key] else ""
  }

  const HTTPS_KEY := "s-ingress.oidq.dev/enforce-https"
  const ALLOW_IP_KEY := "s-ingress.oidq.dev/allow-ip"
  const BASIC_REALM_KEY := "s-ingress.oidq.dev/basic-auth-realm"
  const BASIC_SECRET_KEY := "s-ingress.oidq.dev/basic-auth-secret"
  const AUTH_KEY := "s-ingress.oidq.dev/auth"
  const AUTH_URL_KEY := "s-ingress.oidq.dev/auth-url"
  const AUTH_SIGNIN_KEY := "s-ingress.oidq.dev/auth-signin"
  const OIDC_KEY := "s-ingress.oidq.dev/oidc"
  const OIDC_GROUP_KEY := "s-ingress.oidq.dev/oidc-require-group"
  const OIDC_EMAIL_KEY := "s-ingress.oidq.dev/oidc-require-email"
  const DENY_KEY := "s-ingress.oidq.dev/deny-route"
  const RESPONSE_HEADERS_KEY := "s-ingress.oidq.dev/headers-response"
  const UPSTREAM_HEADERS_KEY := "s-ingress.oidq.dev/headers-upstream"
  const MAX_BODY_KEY := "s-ingress.oidq.dev/max-body"

  // Modules

  function GetSecret(c: Cluster, acc: IngressConf, n: Name): Result<(Secret, IngressConf)> {
    if n in c.secrets then Ok((c.secrets[n], acc.(usedSecrets := acc.usedSecrets + [n]))) else Err
  }

  function IpMiddleware(libs: Libs, ing: Ingress): Result<Option<Middleware>> {
    if ALLOW_IP_KEY !in ing.annotations then Ok(None)
    else
      var prefixes := Text.CommaList(ing.annotations[ALLOW_IP_KEY]);
      if forall i :: 0 <= i < |prefixes| ==> libs.isPrefix(prefixes[i]) then Ok(Some(IpAllowlist(prefixes)))
      else Err
  }

  function BasicMiddleware(libs: Libs, c: Cluster, acc: IngressConf, ing: Ingress)
    : Result<(Option<Middleware>, IngressConf)>
  {
    if BASIC_REALM_KEY !in ing.annotations || BASIC_SECRET_KEY !in ing.annotations then Ok((None, acc))
    else
      var got :- GetSecret(c, acc, Name(ing.id.namespace, ing.annotations[BASIC_SECRET_KEY]));
      if "auth" in got.0.data && libs.isHtpasswd(got.0.data["auth"]) then
        Ok((Some(BasicAuth(ing.annotations[BASIC_REALM_KEY], got.0.data["auth"])), got.1))
      else Err
  }

  function ForwardMiddleware(libs: Libs, configs: map<string, ForwardAuthConf>, ing: Ingress): Result<Option<Middleware>> {
    if AUTH_KEY in ing.annotations && ing.annotations[AUTH_KEY] !in configs then Err
    else
      var conf :=
        if AUTH_URL_KEY in ing.annotations && AUTH_SIGNIN_KEY in ing.annotations then
          Some(ForwardAuthConf(ing.annotations[AUTH_URL_KEY], ing.annotations[AUTH_SIGNIN_KEY]))
        else if AUTH_KEY in ing.annotations then Some(configs[ing.annotations[AUTH_KEY]])
        else None;
      match conf
      case None => Ok(None)
      case Some(f) => if libs.isUrl(f.authUrl) then Ok(Some(ForwardAuth(f.authUrl, f.signInUrl))) else Err
  }

  /** parseAnnotationArray: an absent or empty annotation is no requirement at all. */
  function RequireList(raw: string): Option<seq<string>> {
    if raw == "" then None else Some(Text.CommaList(raw))
  }

  function OidcMiddleware(clients: set<string>, ing: Ingress): Result<Option<Middleware>> {
    var name := Annotation(ing, OIDC_KEY);
    if name == "" then Ok(None)
    else if name !in clients then Err
    else Ok(Some(OidcGuard(name, RequireList(Annotation(ing, OIDC_GROUP_KEY)), RequireList(Annotation(ing, OIDC_EMAIL_KEY)))))
  }

  /** IngressMiddleware of one module; None when the module is not interested. */
  function ModuleMiddleware(libs: Libs, c: Cluster, m: Module, acc: IngressConf, ing: Ingress)
    : Result<(Option<Middleware>, IngressConf)>
  {
    match m
    case EnforceHttps(byDefault) =>
      Ok((if byDefault || Annotation(ing, HTTPS_KEY) == "true" then Some(HttpsRedirect(false)) else None, acc))
    case IpAuth => var o :- IpMiddleware(libs, ing); Ok((o, acc))
    case BasicAuthModule => BasicMiddleware(libs, c, acc, ing)
    case SubrequestAuth(configs) => var o :- ForwardMiddleware(libs, configs, ing); Ok((o, acc))
    case Oidc(clients, _) => var o :- OidcMiddleware(clients, ing); Ok((o, acc))
    case DenyRoute =>
      var p := Annotation(ing, DENY_KEY);
      if p == "" then Ok((None, acc))
      else if libs.isPattern(p) then Ok((Some(DenyPath(p)), acc)) else Err
    case Websocket => Ok((Some(WebsocketProxy), acc))
    case CustomHeader =>
      var raw := Annotation(ing, RESPONSE_HEADERS_KEY);
      Ok((if raw == "" then None else Some(ResponseHeaders(Text.Split(raw, '\n'))), acc))
    case UpstreamHeader =>
      var raw := Annotation(ing, UPSTREAM_HEADERS_KEY);
      Ok((if raw == "" then None else Some(UpstreamHeaders(Text.Split(raw, '\n'))), acc))
  }

  function Appended(ms: seq<Middleware>, o: Option<Middleware>): seq<Middleware> {
    match o
    case None => ms
    case Some(m) => ms + [m]
  }

  /** getMiddlewares from the state (out, acc): modules in order, uninterested ones dropped. */
  function Middlewares(libs: Libs, c: Cluster, ms: seq<Module>, out: seq<Middleware>, acc: IngressConf, ing: Ingress)
    : Result<(seq<Middleware>, IngressConf)>
  {
    if ms == [] then Ok((out, acc))
    else
      var got :- ModuleMiddleware(libs, c, ms[0], acc, ing);
      Middlewares(libs, c, ms[1..], Appended(out, got.0), got.1, ing)
  }

  // Paths

  /** The port of the first matching service port, by name or number; 0 when none matches. */
  function ServicePortFor(ports: seq<ServicePort>, b: ServiceBackend): int {
    if ports == [] then 0
    else if ports[0].name == b.portName || ports[0].port == b.portNumber then ports[0].port
    else ServicePortFor(ports[1..], b)
  }

  function MapPathType(t: Option<string>): Result<PathType> {
    match t
    case None => Ok(Exact)
    case Some(s) =>
      if s == "Prefix" then Ok(Prefix)
      else if s == "Exact" then Ok(Exact)
      else if s == "ImplementationSpecific" then Ok(Prefix)
      else Err
  }

  function MaxBody(conf: ControllerConf, ing: Ingress): Result<int> {
    if MAX_BODY_KEY in ing.annotations then Sizes.ParseByteSize(ing.annotations[MAX_BODY_KEY])
    else Ok(conf.maxBodySize)
  }

  /** Everything of the route that does not depend on earlier paths. */
  function MakeRoute(
    libs: Libs, conf: ControllerConf, svc: Service, ms: seq<Middleware>, ing: Ingress, p: HttpPath, b: ServiceBackend
  ): Result<Route> {
    match libs.parseAddr(svc.clusterIP)
    case None => Err
    case Some(addr) =>
      var pathType :- MapPathType(p.pathType);
      var maxBody :- MaxBody(conf, ing);
      Ok(Route(p.path, pathType, Endpoint(addr, ServicePortFor(svc.ports, b) % 65536), ms, maxBody, ing.id))
  }

  function RoutesOf(hosts: map<string, seq<Route>>, host: string): seq<Route> {
    if host in hosts then hosts[host] else []
  }

  function AddBackend(
    libs: Libs, conf: ControllerConf, c: Cluster, acc: IngressConf, ms: seq<Middleware>,
    ing: Ingress, host: string, p: HttpPath, b: ServiceBackend
  ): Result<IngressConf> {
    var name := Name(ing.id.namespace, b.name);
    if name !in c.services then Err
    else
      var route :- MakeRoute(libs, conf, c.services[name], ms, ing, p, b);
      Ok(acc.(usedServices := acc.usedServices + [name],
              hosts := acc.hosts[host := Insert(RoutesOf(acc.hosts, host), route)]))
  }

  function AddPath(
    libs: Libs, conf: ControllerConf, c: Cluster, acc: IngressConf, ing: Ingress, host: string, p: HttpPath
  ): Result<IngressConf> {
    match p.service
    case None => Ok(acc)
    case Some(b) =>
      var ms :- Middlewares(libs, c, conf.modules, [], acc, ing);
      AddBackend(libs, conf, c, ms.1, ms.0, ing, host, p, b)
  }

  function AddPaths(
    libs: Libs, conf: ControllerConf, c: Cluster, acc: IngressConf, ing: Ingress, host: string, ps: seq<HttpPath>
  ): Result<IngressConf>
    decreases |ps|
  {
    if ps == [] then Ok(acc)
    else
      var acc1 :- AddPath(libs, conf, c, acc, ing, host, ps[0]);
      AddPaths(libs, conf, c, acc1, ing, host, ps[1..])
  }

  function AddRules(
    libs: Libs, conf: ControllerConf, c: Cluster, acc: IngressConf, ing: Ingress, rules: seq<Rule>
  ): Result<IngressConf>
    decreases |rules|
  {
    if rules == [] then Ok(acc)
    else
      var acc1 :- AddPaths(libs, conf, c, acc, ing, rules[0].host, rules[0].paths);
      AddRules(libs, conf, c, acc1, ing, rules[1..])
  }

  // TLS

  /** The first certificate given for a host stays. */
  function AddCerts(certs: map<string, Certificate>, hosts: seq<string>, cert: Certificate): map<string, Certificate>
    decreases |hosts|
  {
    if hosts == [] then certs
    else AddCerts(if hosts[0] in certs then certs else certs[hosts[0] := cert], hosts[1..], cert)
  }

  function CertificateFrom(libs: Libs, c: Cluster, n: Name): Result<Certificate> {
    if n !in c.secrets then Err
    else
      var data := c.secrets[n].data;
      var crt := if "tls.crt" in data then data["tls.crt"] else "";
      var key := if "tls.key" in data then data["tls.key"] else "";
      if libs.isKeyPair(crt, key) then Ok(Certificate(crt, key)) else Err
  }

  function WithCert(acc: IngressConf, n: Name, hosts: seq<string>, cert: Certificate): IngressConf {
    acc.(usedSecrets := acc.usedSecrets + [n], certs := AddCerts(acc.certs, hosts, cert))
  }

  function AddTls(libs: Libs, c: Cluster, acc: IngressConf, ing: Ingress, items: seq<TlsItem>): Result<IngressConf>
    decreases |items|
  {
    if items == [] then Ok(acc)
    else if items[0].secretName == "" then AddTls(libs, c, acc, ing, items[1..])
    else
      var n := Name(ing.id.namespace, items[0].secretName);
      var cert :- CertificateFrom(libs, c, n);
      AddTls(libs, c, WithCert(acc, n, items[0].hosts, cert), ing, items[1..])
  }

  /** reconcileIngress: the compiled configuration of one ingress, or the error that stops it. */
  function Compile(libs: Libs, conf: ControllerConf, c: Cluster, ing: Ingress): Result<IngressConf> {
    var acc :- AddRules(libs, conf, c, EMPTY_CONF, ing, ing.rules);
    AddTls(libs, c, acc, ing, ing.tls)
  }

  // Compiling against successive reads

  /** How many objects have been read so far: every successful read is recorded. */
  function ReadsOf(acc: IngressConf): nat {
    |acc.usedSecrets| + |acc.usedServices|
  }

  function MiddlewaresSeen(libs: Libs, v: Views, ms: seq<Module>, out: seq<Middleware>, acc: IngressConf, ing: Ingress)
    : Result<(seq<Middleware>, IngressConf)>
  {
    if ms == [] then Ok((out, acc))
    else
      var got :- ModuleMiddleware(libs, v(ReadsOf(acc)), ms[0], acc, ing);
      MiddlewaresSeen(libs, v, ms[1..], Appended(out, got.0), got.1, ing)
  }

  function AddPathSeen(
    libs: Libs, conf: ControllerConf, v: Views, acc: IngressConf, ing: Ingress, host: string, p: HttpPath
  ): Result<IngressConf> {
    match p.service
    case None => Ok(acc)
    case Some(b) =>
      var ms :- MiddlewaresSeen(libs, v, conf.modules, [], acc, ing);
      AddBackend(libs, conf, v(ReadsOf(ms.1)), ms.1, ms.0, ing, host, p, b)
  }

  function AddPathsSeen(
    libs: Libs, conf: ControllerConf, v: Views, acc: IngressConf, ing: Ingress, host: string, ps: seq<HttpPath>
  ): Result<IngressConf>
    decreases |ps|
  {
    if ps == [] then Ok(acc)
    else
      var acc1 :- AddPathSeen(libs, conf, v, acc, ing, host, ps[0]);
      AddPathsSeen(libs, conf, v, acc1, ing, host, ps[1..])
  }

  function AddRulesSeen(
    libs: Libs, conf: ControllerConf, v: Views, acc: IngressConf, ing: Ingress, rules: seq<Rule>
  ): Result<IngressConf>
    decreases |rules|
  {
    if rules == [] then Ok(acc)
    else
      var acc1 :- AddPathsSeen(libs, conf, v, acc, ing, rules[0].host, rules[0].paths);
      AddRulesSeen(libs, conf, v, acc1, ing, rules[1..])
  }

  function AddTlsSeen(libs: Libs, v: Views, acc: IngressConf, ing: Ingress, items: seq<TlsItem>): Result<IngressConf>
    decreases |items|
  {
    if items == [] then Ok(acc)
    else if items[0].secretName == "" then AddTlsSeen(libs, v, acc, ing, items[1..])
    else
      var n := Name(ing.id.namespace, items[0].secretName);
      var cert :- CertificateFrom(libs, v(ReadsOf(acc)), n);
      AddTlsSeen(libs, v, WithCert(acc, n, items[0].hosts, cert), ing, items[1..])
  }

  /** reconcileIngress while the cluster may change between any two of its reads. */
  function CompileSeen(libs: Libs, conf: ControllerConf, v: Views, ing: Ingress): Result<IngressConf> {
    var acc :- AddRulesSeen(libs, conf, v, EMPTY_CONF, ing, ing.rules);
    AddTlsSeen(libs, v, acc, ing, ing.tls)
  }

  // Dependency soundness

  /** c and d hold the same object, or lack it alike, under every recorded name. */
  ghost predicate AgreeOn(c: Cluster, d: Cluster, used: IngressConf) {
    && (forall n :: n in used.usedSecrets ==> Lookup(c.secrets, n) == Lookup(d.secrets, n))
    && (forall n :: n in used.usedServices ==> Lookup(c.services, n) == Lookup(d.services, n))
  }

  ghost predicate AllAgree(v: Views, d: Cluster, used: IngressConf) {
    forall k :: AgreeOn(v(k), d, used)
  }

  ghost predicate ReadsWithin(a: IngressConf, b: IngressConf) {
    && (forall n :: n in a.usedSecrets ==> n in b.usedSecrets)
    && (forall n :: n in a.usedServices ==> n in b.usedServices)
  }

  lemma AgreeWithin(v: Views, d: Cluster, a: IngressConf, b: IngressConf)
    requires ReadsWithin(a, b) && AllAgree(v, d, b)
    ensures AllAgree(v, d, a)
  {
  }

  lemma ModuleReads(libs: Libs, c: Cluster, d: Cluster, m: Module, acc: IngressConf, ing: Ingress)
    requires ModuleMiddleware(libs, c, m, acc, ing).Ok?
    ensures ReadsWithin(acc, ModuleMiddleware(libs, c, m, acc, ing).value.1)
    ensures AgreeOn(c, d, ModuleMiddleware(libs, c, m, acc, ing).value.1) ==>
              ModuleMiddleware(libs, d, m, acc, ing) == ModuleMiddleware(libs, c, m, acc, ing)
  {
    if m.BasicAuthModule? && BASIC_SECRET_KEY in ing.annotations {
      var n := Name(ing.id.namespace, ing.annotations[BASIC_SECRET_KEY]);
      assert n in (acc.usedSecrets + [n]);
    }
  }

  lemma {:induction false} MiddlewareReads(
    libs: Libs, v: Views, d: Cluster, ms: seq<Module>, out: seq<Middleware>, acc: IngressConf, ing: Ingress
  )
    requires MiddlewaresSeen(libs, v, ms, out, acc, ing).Ok?
    ensures ReadsWithin(acc, MiddlewaresSeen(libs, v, ms, out, acc, ing).value.1)
    ensures AllAgree(v, d, MiddlewaresSeen(libs, v, ms, out, acc, ing).value.1) ==>
              Middlewares(libs, d, ms, out, acc, ing) == MiddlewaresSeen(libs, v, ms, out, acc, ing)
  {
    if ms != [] {
      var c, used := v(ReadsOf(acc)), MiddlewaresSeen(libs, v, ms, out, acc, ing).value.1;
      ModuleReads(libs, c, d, ms[0], acc, ing);
      var got := ModuleMiddleware(libs, c, ms[0], acc, ing).value;
      MiddlewareReads(libs, v, d, ms[1..], Appended(out, got.0), got.1, ing);
      if AllAgree(v, d, used) {
        AgreeWithin(v, d, got.1, used);
      }
    }
  }

  lemma PathReads(
    libs: Libs, conf: ControllerConf, v: Views, d: Cluster, acc: IngressConf, ing: Ingress, host: string, p: HttpPath
  )
    requires AddPathSeen(libs, conf, v, acc, ing, host, p).Ok?
    ensures ReadsWithin(acc, AddPathSeen(libs, conf, v, acc, ing, host, p).value)
    ensures AllAgree(v, d, AddPathSeen(libs, conf, v, acc, ing, host, p).value) ==>
              AddPath(libs, conf, d, acc, ing, host, p) == AddPathSeen(libs, conf, v, acc, ing, host, p)
  {
    if p.service.Some? {
      MiddlewareReads(libs, v, d, conf.modules, [], acc, ing);
      var ms := MiddlewaresSeen(libs, v, conf.modules, [], acc, ing).value;
      var used := AddPathSeen(libs, conf, v, acc, ing, host, p).value;
      var n := Name(ing.id.namespace, p.service.value.name);
      assert n in used.usedServices && ReadsWithin(ms.1, used);
      if AllAgree(v, d, used) {
        AgreeWithin(v, d, ms.1, used);
        assert AgreeOn(v(ReadsOf(ms.1)), d, used);
      }
    }
  }

  lemma {:induction false} PathsReads(
    libs: Libs, conf: ControllerConf, v: Views, d: Cluster, acc: IngressConf, ing: Ingress, host: string, ps: seq<HttpPath>
  )
    requires AddPathsSeen(libs, conf, v, acc, ing, host, ps).Ok?
    ensures ReadsWithin(acc, AddPathsSeen(libs, conf, v, acc, ing, host, ps).value)
    ensures AllAgree(v, d, AddPathsSeen(libs, conf, v, acc, ing, host, ps).value) ==>
              AddPaths(libs, conf, d, acc, ing, host, ps) == AddPathsSeen(libs, conf, v, acc, ing, host, ps)
    decreases |ps|
  {
    if ps != [] {
      var acc1 := AddPathSeen(libs, conf, v, acc, ing, host, ps[0]).value;
      var used := AddPathsSeen(libs, conf, v, acc, ing, host, ps).value;
      PathReads(libs, conf, v, d, acc, ing, host, ps[0]);
      PathsReads(libs, conf, v, d, acc1, ing, host, ps[1..]);
      if AllAgree(v, d, used) {
        AgreeWithin(v, d, acc1, used);
      }
    }
  }

  lemma {:induction false} RulesReads(
    libs: Libs, conf: ControllerConf, v: Views, d: Cluster, acc: IngressConf, ing: Ingress, rules: seq<Rule>
  )
    requires AddRulesSeen(libs, conf, v, acc, ing, rules).Ok?
    ensures ReadsWithin(acc, AddRulesSeen(libs, conf, v, acc, ing, rules).value)
    ensures AllAgree(v, d, AddRulesSeen(libs, conf, v, acc, ing, rules).value) ==>
              AddRules(libs, conf, d, acc, ing, rules) == AddRulesSeen(libs, conf, v, acc, ing, rules)
    decreases |rules|
  {
    if rules != [] {
      var acc1 := AddPathsSeen(libs, conf, v, acc, ing, rules[0].host, rules[0].paths).value;
      var used := AddRulesSeen(libs, conf, v, acc, ing, rules).value;
      PathsReads(libs, conf, v, d, acc, ing, rules[0].host, rules[0].paths);
      RulesReads(libs, conf, v, d, acc1, ing, rules[1..]);
      if AllAgree(v, d, used) {
        AgreeWithin(v, d, acc1, used);
      }
    }
  }

  lemma {:induction false} TlsReads(libs: Libs, v: Views, d: Cluster, acc: IngressConf, ing: Ingress, items: seq<TlsItem>)
    requires AddTlsSeen(libs, v, acc, ing, items).Ok?
    ensures ReadsWithin(acc, AddTlsSeen(libs, v, acc, ing, items).value)
    ensures AllAgree(v, d, AddTlsSeen(libs, v, acc, ing, items).value) ==>
              AddTls(libs, d, acc, ing, items) == AddTlsSeen(libs, v, acc, ing, items)
    decreases |items|
  {
    if items != [] {
      if items[0].secretName == "" {
        TlsReads(libs, v, d, acc, ing, items[1..]);
      } else {
        var n := Name(ing.id.namespace, items[0].secretName);
        var c := v(ReadsOf(acc));
        var acc1 := WithCert(acc, n, items[0].hosts, CertificateFrom(libs, c, n).value);
        TlsReads(libs, v, d, acc1, ing, items[1..]);
        assert n in acc1.usedSecrets;
        if AllAgree(v, d, AddTlsSeen(libs, v, acc, ing, items).value) {
          assert AgreeOn(c, d, AddTlsSeen(libs, v, acc, ing, items).value);
        }
      }
    }
  }

  /** Dependency soundness with one snapshot per read: a cluster that agrees with every snapshot on every recorded
      read compiles the ingress to the same configuration with the same recorded reads. */
  lemma SeenDependsOnReads(libs: Libs, conf: ControllerConf, v: Views, d: Cluster, ing: Ingress)
    requires CompileSeen(libs, conf, v, ing).Ok?
    requires AllAgree(v, d, CompileSeen(libs, conf, v, ing).value)
    ensures Compile(libs, conf, d, ing) == CompileSeen(libs, conf, v, ing)
  {
    var acc, used := AddRulesSeen(libs, conf, v, EMPTY_CONF, ing, ing.rules).value, CompileSeen(libs, conf, v, ing).value;
    RulesReads(libs, conf, v, d, EMPTY_CONF, ing, ing.rules);
    TlsReads(libs, v, d, acc, ing, ing.tls);
    AgreeWithin(v, d, acc, used);
  }

  // Steady reads

  /** Every snapshot holds the services and secrets of c. */
  ghost predicate Steady(v: Views, c: Cluster) {
    forall k :: v(k).services == c.services && v(k).secrets == c.secrets
  }

  lemma {:induction false} MiddlewaresSteady(
    libs: Libs, v: Views, c: Cluster, ms: seq<Module>, out: seq<Middleware>, acc: IngressConf, ing: Ingress
  )
    requires Steady(v, c)
    ensures MiddlewaresSeen(libs, v, ms, out, acc, ing) == Middlewares(libs, c, ms, out, acc, ing)
    decreases |ms|
  {
    if ms != [] {
      var got := ModuleMiddleware(libs, c, ms[0], acc, ing);
      ModuleBySecrets(libs, v(ReadsOf(acc)), c, ms[0], acc, ing);
      if got.Ok? {
        MiddlewaresSteady(libs, v, c, ms[1..], Appended(out, got.value.0), got.value.1, ing);
      }
    }
  }

  lemma ModuleBySecrets(libs: Libs, c: Cluster, d: Cluster, m: Module, acc: IngressConf, ing: Ingress)
    requires c.secrets == d.secrets
    ensures ModuleMiddleware(libs, c, m, acc, ing) == ModuleMiddleware(libs, d, m, acc, ing)
  {
  }

  lemma PathSteady(
    libs: Libs, conf: ControllerConf, v: Views, c: Cluster, acc: IngressConf, ing: Ingress, host: string, p: HttpPath
  )
    requires Steady(v, c)
    ensures AddPathSeen(libs, conf, v, acc, ing, host, p) == AddPath(libs, conf, c, acc, ing, host, p)
  {
    MiddlewaresSteady(libs, v, c, conf.modules, [], acc, ing);
  }

  lemma {:induction false} PathsSteady(
    libs: Libs, conf: ControllerConf, v: Views, c: Cluster, acc: IngressConf, ing: Ingress, host: string, ps: seq<HttpPath>
  )
    requires Steady(v, c)
    ensures AddPathsSeen(libs, conf, v, acc, ing, host, ps) == AddPaths(libs, conf, c, acc, ing, host, ps)
    decreases |ps|
  {
    if ps != [] {
      PathSteady(libs, conf, v, c, acc, ing, host, ps[0]);
      var one := AddPath(libs, conf, c, acc, ing, host, ps[0]);
      if one.Ok? {
        PathsSteady(libs, conf, v, c, one.value, ing, host, ps[1..]);
      }
    }
  }

  lemma {:induction false} RulesSteady(
    libs: Libs, conf: ControllerConf, v: Views, c: Cluster, acc: IngressConf, ing: Ingress, rules: seq<Rule>
  )
    requires Steady(v, c)
    ensures AddRulesSeen(libs, conf, v, acc, ing, rules) == AddRules(libs, conf, c, acc, ing, rules)
    decreases |rules|
  {
    if rules != [] {
      PathsSteady(libs, conf, v, c, acc, ing, rules[0].host, rules[0].paths);
      var one := AddPaths(libs, conf, c, acc, ing, rules[0].host, rules[0].paths);
      if one.Ok? {
        RulesSteady(libs, conf, v, c, one.value, ing, rules[1..]);
      }
    }
  }

  lemma {:induction false} TlsSteady(libs: Libs, v: Views, c: Cluster, acc: IngressConf, ing: Ingress, items: seq<TlsItem>)
    requires Steady(v, c)
    ensures AddTlsSeen(libs, v, acc, ing, items) == AddTls(libs, c, acc, ing, items)
    decreases |items|
  {
    if items != [] {
      if items[0].secretName == "" {
        TlsSteady(libs, v, c, acc, ing, items[1..]);
      } else {
        var n := Name(ing.id.namespace, items[0].secretName);
        var cert := CertificateFrom(libs, c, n);
        assert CertificateFrom(libs, v(ReadsOf(acc)), n) == cert;
        if cert.Ok? {
          TlsSteady(libs, v, c, WithCert(acc, n, items[0].hosts, cert.value), ing, items[1..]);
        }
      }
    }
  }

  /** When nothing changes between the reads, the snapshots do not show. */
  lemma CompileSteady(libs: Libs, conf: ControllerConf, v: Views, c: Cluster, ing: Ingress)
    requires Steady(v, c)
    ensures CompileSeen(libs, conf, v, ing) == Compile(libs, conf, c, ing)
  {
    RulesSteady(libs, conf, v, c, EMPTY_CONF, ing, ing.rules);
    var acc := AddRules(libs, conf, c, EMPTY_CONF, ing, ing.rules);
    if acc.Ok? {
      TlsSteady(libs, v, c, acc.value, ing, ing.tls);
    }
  }

  lemma CompileStill(libs: Libs, conf: ControllerConf, c: Cluster, ing: Ingress)
    ensures CompileSeen(libs, conf, Still(c), ing) == Compile(libs, conf, c, ing)
  {
    CompileSteady(libs, conf, Still(c), c, ing);
  }

  /** Dependency soundness: a cluster that agrees on every recorded read compiles the ingress to the same
      configuration with the same recorded reads. */
  lemma CompileDependsOnReads(libs: Libs, conf: ControllerConf, c: Cluster, d: Cluster, ing: Ingress)
    requires Compile(libs, conf, c, ing).Ok?
    requires AgreeOn(c, d, Compile(libs, conf, c, ing).value)
    ensures Compile(libs, conf, d, ing) == Compile(libs, conf, c, ing)
  {
    CompileStill(libs, conf, c, ing);
    SeenDependsOnReads(libs, conf, Still(c), d, ing);
  }

  // The declared routes

  /** The route a path declares, as a list of at most one. */
  function RouteFor(libs: Libs, conf: ControllerConf, c: Cluster, ing: Ingress, p: HttpPath): seq<Route> {
    match p.service
    case None => []
    case Some(b) =>
      var name := Name(ing.id.namespace, b.name);
      match Middlewares(libs, c, conf.modules, [], EMPTY_CONF, ing)
      case Err => []
      case Ok(ms) =>
        if name !in c.services then []
        else
          match MakeRoute(libs, conf, c.services[name], ms.0, ing, p, b)
          case Err => []
          case Ok(route) => [route]
  }

  function DeclaredPaths(libs: Libs, conf: ControllerConf, c: Cluster, ing: Ingress, ps: seq<HttpPath>): seq<Route> {
    if ps == [] then []
    else RouteFor(libs, conf, c, ing, ps[0]) + DeclaredPaths(libs, conf, c, ing, ps[1..])
  }

  /** The routes that the rules declare for a host, in declaration order. */
  function Declared(
    libs: Libs, conf: ControllerConf, c: Cluster, ing: Ingress, rules: seq<Rule>, host: string
  ): seq<Route> {
    if rules == [] then []
    else
      (if rules[0].host == host then DeclaredPaths(libs, conf, c, ing, rules[0].paths) else [])
      + Declared(libs, conf, c, ing, rules[1..], host)
  }

  ghost predicate Grown(
    before: map<string, seq<Route>>, after: map<string, seq<Route>>, host: string, added: seq<Route>
  ) {
    && RoutesOf(after, host) == InsertAll(RoutesOf(before, host), added)
    && (host in after <==> host in before || added != [])
  }

  lemma GrownTwice(
    a: map<string, seq<Route>>, b: map<string, seq<Route>>, c: map<string, seq<Route>>,
    host: string, first: seq<Route>, second: seq<Route>
  )
    requires Grown(a, b, host, first) && Grown(b, c, host, second)
    ensures Grown(a, c, host, first + second)
  {
    InsertAllConcat(RoutesOf(a, host), first, second);
  }

  lemma {:induction false} MiddlewaresIgnoreAcc(
    libs: Libs, c: Cluster, ms: seq<Module>, out: seq<Middleware>, a: IngressConf, b: IngressConf, ing: Ingress
  )
    ensures var x, y := Middlewares(libs, c, ms, out, a, ing), Middlewares(libs, c, ms, out, b, ing);
            && (x.Ok? <==> y.Ok?)
            && (x.Ok? ==> x.value.0 == y.value.0 && x.value.1.hosts == a.hosts && x.value.1.certs == a.certs)
    decreases |ms|
  {
    if ms != [] {
      var x, y := ModuleMiddleware(libs, c, ms[0], a, ing), ModuleMiddleware(libs, c, ms[0], b, ing);
      assert (x.Ok? <==> y.Ok?) && (x.Ok? ==> x.value.0 == y.value.0);
      if x.Ok? {
        MiddlewaresIgnoreAcc(libs, c, ms[1..], Appended(out, x.value.0), x.value.1, y.value.1, ing);
      }
    }
  }

  lemma PathGrows(
    libs: Libs, conf: ControllerConf, c: Cluster, acc: IngressConf, ing: Ingress, host: string, p: HttpPath, h: string
  )
    requires AddPath(libs, conf, c, acc, ing, host, p).Ok?
    ensures Grown(acc.hosts, AddPath(libs, conf, c, acc, ing, host, p).value.hosts, h,
                  if h == host then RouteFor(libs, conf, c, ing, p) else [])
  {
    if p.service.Some? {
      MiddlewaresIgnoreAcc(libs, c, conf.modules, [], acc, EMPTY_CONF, ing);
      MiddlewaresIgnoreAcc(libs, c, conf.modules, [], EMPTY_CONF, acc, ing);
      var r := RouteFor(libs, conf, c, ing, p);
      assert |r| == 1 && r[..0] == [];
      assert InsertAll(RoutesOf(acc.hosts, host), r) == Insert(RoutesOf(acc.hosts, host), r[0]);
    }
  }

  lemma {:induction false} PathsGrow(
    libs: Libs, conf: ControllerConf, c: Cluster, acc: IngressConf, ing: Ingress, host: string, ps: seq<HttpPath>, h: string
  )
    requires AddPaths(libs, conf, c, acc, ing, host, ps).Ok?
    ensures Grown(acc.hosts, AddPaths(libs, conf, c, acc, ing, host, ps).value.hosts, h,
                  if h == host then DeclaredPaths(libs, conf, c, ing, ps) else [])
    decreases |ps|
  {
    if ps != [] {
      var acc1 := AddPath(libs, conf, c, acc, ing, host, ps[0]).value;
      PathGrows(libs, conf, c, acc, ing, host, ps[0], h);
      PathsGrow(libs, conf, c, acc1, ing, host, ps[1..], h);
      GrownTwice(acc.hosts, acc1.hosts, AddPaths(libs, conf, c, acc, ing, host, ps).value.hosts, h,
                 if h == host then RouteFor(libs, conf, c, ing, ps[0]) else [],
                 if h == host then DeclaredPaths(libs, conf, c, ing, ps[1..]) else []);
    }
  }

  lemma {:induction false} RulesGrow(
    libs: Libs, conf: ControllerConf, c: Cluster, acc: IngressConf, ing: Ingress, rules: seq<Rule>, h: string
  )
    requires AddRules(libs, conf, c, acc, ing, rules).Ok?
    ensures Grown(acc.hosts, AddRules(libs, conf, c, acc, ing, rules).value.hosts, h,
                  Declared(libs, conf, c, ing, rules, h))
    decreases |rules|
  {
    if rules != [] {
      var acc1 := AddPaths(libs, conf, c, acc, ing, rules[0].host, rules[0].paths).value;
      PathsGrow(libs, conf, c, acc, ing, rules[0].host, rules[0].paths, h);
      RulesGrow(libs, conf, c, acc1, ing, rules[1..], h);
      GrownTwice(acc.hosts, acc1.hosts, AddRules(libs, conf, c, acc, ing, rules).value.hosts, h,
                 if h == rules[0].host then DeclaredPaths(libs, conf, c, ing, rules[0].paths) else [],
                 Declared(libs, conf, c, ing, rules[1..], h));
    }
  }

  lemma {:induction false} TlsKeepsHosts(libs: Libs, c: Cluster, acc: IngressConf, ing: Ingress, items: seq<TlsItem>)
    requires AddTls(libs, c, acc, ing, items).Ok?
    ensures AddTls(libs, c, acc, ing, items).value.hosts == acc.hosts
    decreases |items|
  {
    if items != [] {
      if items[0].secretName == "" {
        TlsKeepsHosts(libs, c, acc, ing, items[1..]);
      } else {
        var n := Name(ing.id.namespace, items[0].secretName);
        var cert := CertificateFrom(libs, c, n).value;
        TlsKeepsHosts(libs, c, WithCert(acc, n, items[0].hosts, cert), ing, items[1..]);
      }
    }
  }

  /** A compiled host list is one AddRoute pass over the routes its rules declare, and a host is present
      exactly when something is declared for it. */
  lemma CompiledHost(libs: Libs, conf: ControllerConf, c: Cluster, ing: Ingress, h: string)
    requires Compile(libs, conf, c, ing).Ok?
    ensures RoutesOf(Compile(libs, conf, c, ing).value.hosts, h)
         == InsertAll([], Declared(libs, conf, c, ing, ing.rules, h))
    ensures h in Compile(libs, conf, c, ing).value.hosts <==> Declared(libs, conf, c, ing, ing.rules, h) != []
  {
    RulesGrow(libs, conf, c, EMPTY_CONF, ing, ing.rules, h);
    TlsKeepsHosts(libs, c, AddRules(libs, conf, c, EMPTY_CONF, ing, ing.rules).value, ing, ing.tls);
  }

  lemma {:induction false} DeclaredPathsOwner(libs: Libs, conf: ControllerConf, c: Cluster, ing: Ingress, ps: seq<HttpPath>)
    ensures forall r :: r in DeclaredPaths(libs, conf, c, ing, ps) ==> r.ingress == ing.id
  {
    if ps != [] {
      DeclaredPathsOwner(libs, conf, c, ing, ps[1..]);
    }
  }

  /** Every declared route names its ingress. */
  lemma {:induction false} DeclaredOwner(
    libs: Libs, conf: ControllerConf, c: Cluster, ing: Ingress, rules: seq<Rule>, h: string
  )
    ensures forall r :: r in Declared(libs, conf, c, ing, rules, h) ==> r.ingress == ing.id
    decreases |rules|
  {
    if rules != [] {
      DeclaredPathsOwner(libs, conf, c, ing, rules[0].paths);
      DeclaredOwner(libs, conf, c, ing, rules[1..], h);
    }
  }

  // Ports

  predicate PortMatches(p: ServicePort, b: ServiceBackend) {
    p.name == b.portName || p.port == b.portNumber
  }

  /** The first port that matches by name or by number is taken. */
  lemma {:induction false} ServicePortFirst(ports: seq<ServicePort>, b: ServiceBackend) returns (i: int)
    ensures i == -1 ==> ServicePortFor(ports, b) == 0 && forall j :: 0 <= j < |ports| ==> !PortMatches(ports[j], b)
    ensures i != -1 ==> && 0 <= i < |ports| && PortMatches(ports[i], b) && ServicePortFor(ports, b) == ports[i].port
                        && forall j :: 0 <= j < i ==> !PortMatches(ports[j], b)
  {
    if ports == [] {
      i := -1;
    } else if PortMatches(ports[0], b) {
      i := 0;
    } else {
      var k := ServicePortFirst(ports[1..], b);
      i := if k == -1 then -1 else k + 1;
    }
  }

  /** What a declared route carries: the path as written, exact matching when the type is absent or Exact, the body
      limit of the annotation if there is one, and the service's address with the first port that matches by name or
      by number, in 16 bits, or 0. */
  lemma RouteFields(libs: Libs, conf: ControllerConf, c: Cluster, ing: Ingress, p: HttpPath, r: Route) returns (i: int)
    requires r in RouteFor(libs, conf, c, ing, p)
    ensures r.path == p.path && r.ingress == ing.id
    ensures r.pathType.Exact? <==> p.pathType.None? || p.pathType == Some("Exact")
    ensures r.pathType.Prefix? <==> p.pathType == Some("Prefix") || p.pathType == Some("ImplementationSpecific")
    ensures MAX_BODY_KEY in ing.annotations ==> Sizes.ParseByteSize(ing.annotations[MAX_BODY_KEY]) == Ok(r.maxBodySize)
    ensures MAX_BODY_KEY !in ing.annotations ==> r.maxBodySize == conf.maxBodySize
    ensures p.service.Some? && Name(ing.id.namespace, p.service.value.name) in c.services
    ensures var b := p.service.value;
            var service := c.services[Name(ing.id.namespace, b.name)];
            && libs.parseAddr(service.clusterIP) == Some(r.endpoint.address)
            && (i == -1 ==> r.endpoint.port == 0 && forall j :: 0 <= j < |service.ports| ==> !PortMatches(service.ports[j], b))
            && (i != -1 ==> && 0 <= i < |service.ports| && PortMatches(service.ports[i], b)
                            && r.endpoint.port == service.ports[i].port % 65536
                            && forall j :: 0 <= j < i ==> !PortMatches(service.ports[j], b))
  {
    i := ServicePortFirst(c.services[Name(ing.id.namespace, p.service.value.name)].ports, p.service.value);
  }

  /** A backend that names its port by number only, offered first at ports[k], gets that number exactly when no
      earlier port is unnamed: an unnamed port matches the absent name. */
  lemma PortByNumberExactly(ports: seq<ServicePort>, b: ServiceBackend, k: nat)
    requires b.portName == "" && k < |ports| && ports[k].port == b.portNumber
    requires forall j :: 0 <= j < k ==> ports[j].port != b.portNumber
    ensures ServicePortFor(ports, b) == b.portNumber <==> forall j :: 0 <= j < k ==> ports[j].name != ""
  {
    var i := ServicePortFirst(ports, b);
    assert PortMatches(ports[k], b);
  }

  // Certificates

  /** A secret yields the certificate of its tls.crt and its tls.key field, in this order, exactly when they are a key
      pair; a missing field counts as empty. */
  lemma CertificateExactly(libs: Libs, c: Cluster, n: Name, cert: Certificate)
    ensures CertificateFrom(libs, c, n) == Ok(cert) <==>
            && n in c.secrets && libs.isKeyPair(cert.crt, cert.key)
            && (if "tls.crt" in c.secrets[n].data then cert.crt == c.secrets[n].data["tls.crt"] else cert.crt == "")
            && (if "tls.key" in c.secrets[n].data then cert.key == c.secrets[n].data["tls.key"] else cert.key == "")
  {
  }

  predicate Lists(item: TlsItem, h: string) {
    item.secretName != "" && h in item.hosts
  }

  lemma {:induction false} AddCertsLookup(certs: map<string, Certificate>, hosts: seq<string>, cert: Certificate, h: string)
    ensures Lookup(AddCerts(certs, hosts, cert), h)
         == if h in certs then Some(certs[h]) else if h in hosts then Some(cert) else None
    decreases |hosts|
  {
    if hosts != [] {
      AddCertsLookup(if hosts[0] in certs then certs else certs[hosts[0] := cert], hosts[1..], cert, h);
    }
  }

  lemma {:induction false} TlsCert(libs: Libs, c: Cluster, acc: IngressConf, ing: Ingress, items: seq<TlsItem>, h: string)
    returns (k: int)
    requires AddTls(libs, c, acc, ing, items).Ok?
    ensures h in acc.certs ==> Lookup(AddTls(libs, c, acc, ing, items).value.certs, h) == Some(acc.certs[h])
    ensures h !in acc.certs ==> FirstListed(libs, c, ing, items, h, k, Lookup(AddTls(libs, c, acc, ing, items).value.certs, h))
    decreases |items|
  {
    if items == [] {
      k := -1;
    } else if items[0].secretName == "" {
      k := TlsCert(libs, c, acc, ing, items[1..], h);
      k := if k == -1 then -1 else k + 1;
    } else {
      var n := Name(ing.id.namespace, items[0].secretName);
      var cert := CertificateFrom(libs, c, n).value;
      AddCertsLookup(acc.certs, items[0].hosts, cert, h);
      k := TlsCert(libs, c, WithCert(acc, n, items[0].hosts, cert), ing, items[1..], h);
      k := if h in items[0].hosts then 0 else if k == -1 then -1 else k + 1;
    }
  }

  /** items[k] is the first to list h, and found its certificate; k is -1 when none lists h. */
  ghost predicate FirstListed(
    libs: Libs, c: Cluster, ing: Ingress, items: seq<TlsItem>, h: string, k: int, found: Option<Certificate>
  ) {
    if k == -1 then found.None? && forall i :: 0 <= i < |items| ==> !Lists(items[i], h)
    else
      && 0 <= k < |items| && Lists(items[k], h) && (forall i :: 0 <= i < k ==> !Lists(items[i], h))
      && found.Some? && CertificateFrom(libs, c, Name(ing.id.namespace, items[k].secretName)) == Ok(found.value)
  }

  lemma {:induction false} PathsKeepCerts(
    libs: Libs, conf: ControllerConf, c: Cluster, acc: IngressConf, ing: Ingress, host: string, ps: seq<HttpPath>
  )
    requires AddPaths(libs, conf, c, acc, ing, host, ps).Ok?
    ensures AddPaths(libs, conf, c, acc, ing, host, ps).value.certs == acc.certs
    decreases |ps|
  {
    if ps != [] {
      MiddlewaresIgnoreAcc(libs, c, conf.modules, [], acc, EMPTY_CONF, ing);
      PathsKeepCerts(libs, conf, c, AddPath(libs, conf, c, acc, ing, host, ps[0]).value, ing, host, ps[1..]);
    }
  }

  lemma {:induction false} RulesKeepCerts(
    libs: Libs, conf: ControllerConf, c: Cluster, acc: IngressConf, ing: Ingress, rules: seq<Rule>
  )
    requires AddRules(libs, conf, c, acc, ing, rules).Ok?
    ensures AddRules(libs, conf, c, acc, ing, rules).value.certs == acc.certs
    decreases |rules|
  {
    if rules != [] {
      PathsKeepCerts(libs, conf, c, acc, ing, rules[0].host, rules[0].paths);
      RulesKeepCerts(libs, conf, c, AddPaths(libs, conf, c, acc, ing, rules[0].host, rules[0].paths).value, ing, rules[1..]);
    }
  }

  /** A compiled host has a certificate exactly when a TLS item with a secret lists it, and then that of the first. */
  lemma CompiledCert(libs: Libs, conf: ControllerConf, c: Cluster, ing: Ingress, h: string) returns (k: int)
    requires Compile(libs, conf, c, ing).Ok?
    ensures FirstListed(libs, c, ing, ing.tls, h, k, Lookup(Compile(libs, conf, c, ing).value.certs, h))
  {
    RulesKeepCerts(libs, conf, c, EMPTY_CONF, ing, ing.rules);
    k := TlsCert(libs, c, AddRules(libs, conf, c, EMPTY_CONF, ing, ing.rules).value, ing, ing.tls, h);
  }

  // Compiled routes name their ingress

  ghost predicate NamedAfter(hosts: map<string, seq<Route>>, n: Name) {
    forall h, r :: r in RoutesOf(hosts, h) ==> r.ingress == n
  }

  lemma InsertNamed(hosts: map<string, seq<Route>>, host: string, r: Route)
    requires NamedAfter(hosts, r.ingress)
    ensures NamedAfter(hosts[host := Insert(RoutesOf(hosts, host), r)], r.ingress)
  {
    var more := hosts[host := Insert(RoutesOf(hosts, host), r)];
    forall h, q | q in RoutesOf(more, h) ensures q.ingress == r.ingress {
      InsertMember(RoutesOf(hosts, host), r, q);
      assert q in RoutesOf(hosts, h) || q == r;
    }
  }

  lemma {:induction false} MiddlewaresKeepHosts(
    libs: Libs, v: Views, ms: seq<Module>, out: seq<Middleware>, acc: IngressConf, ing: Ingress
  )
    requires MiddlewaresSeen(libs, v, ms, out, acc, ing).Ok?
    ensures MiddlewaresSeen(libs, v, ms, out, acc, ing).value.1.hosts == acc.hosts
    decreases |ms|
  {
    if ms != [] {
      var got := ModuleMiddleware(libs, v(ReadsOf(acc)), ms[0], acc, ing).value;
      assert got.1.hosts == acc.hosts;
      MiddlewaresKeepHosts(libs, v, ms[1..], Appended(out, got.0), got.1, ing);
    }
  }

  lemma {:induction false} PathsNamed(
    libs: Libs, conf: ControllerConf, v: Views, acc: IngressConf, ing: Ingress, host: string, ps: seq<HttpPath>
  )
    requires AddPathsSeen(libs, conf, v, acc, ing, host, ps).Ok? && NamedAfter(acc.hosts, ing.id)
    ensures NamedAfter(AddPathsSeen(libs, conf, v, acc, ing, host, ps).value.hosts, ing.id)
    decreases |ps|
  {
    if ps != [] {
      PathNamed(libs, conf, v, acc, ing, host, ps[0]);
      PathsNamed(libs, conf, v, AddPathSeen(libs, conf, v, acc, ing, host, ps[0]).value, ing, host, ps[1..]);
    }
  }

  lemma PathNamed(
    libs: Libs, conf: ControllerConf, v: Views, acc: IngressConf, ing: Ingress, host: string, p: HttpPath
  )
    requires AddPathSeen(libs, conf, v, acc, ing, host, p).Ok? && NamedAfter(acc.hosts, ing.id)
    ensures NamedAfter(AddPathSeen(libs, conf, v, acc, ing, host, p).value.hosts, ing.id)
  {
    if p.service.Some? {
      MiddlewaresKeepHosts(libs, v, conf.modules, [], acc, ing);
      var ms := MiddlewaresSeen(libs, v, conf.modules, [], acc, ing).value;
      BackendNamed(libs, conf, v(ReadsOf(ms.1)), ms.1, ms.0, ing, host, p, p.service.value);
    }
  }

  lemma BackendNamed(
    libs: Libs, conf: ControllerConf, c: Cluster, acc: IngressConf, ms: seq<Middleware>,
    ing: Ingress, host: string, p: HttpPath, b: ServiceBackend
  )
    requires AddBackend(libs, conf, c, acc, ms, ing, host, p, b).Ok? && NamedAfter(acc.hosts, ing.id)
    ensures NamedAfter(AddBackend(libs, conf, c, acc, ms, ing, host, p, b).value.hosts, ing.id)
  {
    var name := Name(ing.id.namespace, b.name);
    InsertNamed(acc.hosts, host, MakeRoute(libs, conf, c.services[name], ms, ing, p, b).value);
  }

  lemma {:induction false} RulesNamed(
    libs: Libs, conf: ControllerConf, v: Views, acc: IngressConf, ing: Ingress, rules: seq<Rule>
  )
    requires AddRulesSeen(libs, conf, v, acc, ing, rules).Ok? && NamedAfter(acc.hosts, ing.id)
    ensures NamedAfter(AddRulesSeen(libs, conf, v, acc, ing, rules).value.hosts, ing.id)
    decreases |rules|
  {
    if rules != [] {
      PathsNamed(libs, conf, v, acc, ing, rules[0].host, rules[0].paths);
      RulesNamed(libs, conf, v, AddPathsSeen(libs, conf, v, acc, ing, rules[0].host, rules[0].paths).value, ing, rules[1..]);
    }
  }

  lemma {:induction false} TlsSeenKeepsHosts(libs: Libs, v: Views, acc: IngressConf, ing: Ingress, items: seq<TlsItem>)
    requires AddTlsSeen(libs, v, acc, ing, items).Ok?
    ensures AddTlsSeen(libs, v, acc, ing, items).value.hosts == acc.hosts
    decreases |items|
  {
    if items != [] {
      if items[0].secretName == "" {
        TlsSeenKeepsHosts(libs, v, acc, ing, items[1..]);
      } else {
        var n := Name(ing.id.namespace, items[0].secretName);
        var cert := CertificateFrom(libs, v(ReadsOf(acc)), n).value;
        TlsSeenKeepsHosts(libs, v, WithCert(acc, n, items[0].hosts, cert), ing, items[1..]);
      }
    }
  }

  /** Whatever the reads see, every compiled route names its ingress. */
  lemma SeenNamed(libs: Libs, conf: ControllerConf, v: Views, ing: Ingress)
    requires CompileSeen(libs, conf, v, ing).Ok?
    ensures NamedAfter(CompileSeen(libs, conf, v, ing).value.hosts, ing.id)
  {
    RulesNamed(libs, conf, v, EMPTY_CONF, ing, ing.rules);
    TlsSeenKeepsHosts(libs, v, AddRulesSeen(libs, conf, v, EMPTY_CONF, ing, ing.rules).value, ing, ing.tls);
  }
}
