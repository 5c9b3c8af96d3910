/** reconcileIngress as the source writes it: nested loops that fill an
    IngressConfiguration object, proved against Converter.CompileSeen. The
    k-th object is read from views(k). */
module IngressBuilder {
  import opened Prelude
  import opened Kube
  import opened Routing
  import Converter
  import Text

  class IngressConfiguration {
    var usedSecrets: seq<Name>
    var usedServices: seq<Name>
    var hosts: map<string, HostConfig>
    var certs: map<string, Certificate>

    /** No two hosts share a route list. */
    ghost predicate Valid()
      reads this`hosts
    {
      forall a, b :: a in hosts && b in hosts && a != b ==> hosts[a] != hosts[b]
    }

    function RouteLists(): map<string, seq<Route>>
      reads this`hosts, hosts.Values
    {
      map h | h in hosts :: hosts[h].routes
    }

    ghost function View(): Converter.IngressConf
      reads this, hosts.Values
    {
      Converter.IngressConf(usedSecrets, usedServices, RouteLists(), certs)
    }

    constructor ()
      ensures Valid() && hosts == map[] && View() == Converter.EMPTY_CONF
    {
      usedSecrets, usedServices, hosts, certs := [], [], map[], map[];
    }

    function Reads(): (k: nat)
      reads this`usedSecrets, this`usedServices
      ensures k == |usedSecrets| + |usedServices|
    {
      |usedSecrets| + |usedServices|
    }

    /** A secret is recorded only once it has been read. */
    method GetSecret(views: Views, name: Name) returns (secret: Option<Secret>)
      modifies this`usedSecrets
      ensures secret.Some? <==> name in views(Converter.ReadsOf(old(View()))).secrets
      ensures secret.Some? ==> Converter.GetSecret(views(Converter.ReadsOf(old(View()))), old(View()), name) == Ok((secret.value, View()))
    {
      var cluster := views(Reads());
      if name !in cluster.secrets {
        return None;
      }
      usedSecrets := usedSecrets + [name];
      return Some(cluster.secrets[name]);
    }

    method BasicAuthMiddleware(libs: Converter.Libs, views: Views, ing: Ingress) returns (r: Result<Option<Middleware>>)
      modifies this`usedSecrets
      ensures var spec := Converter.BasicMiddleware(libs, views(Converter.ReadsOf(old(View()))), old(View()), ing);
              (r.Ok? <==> spec.Ok?) && (r.Ok? ==> spec == Ok((r.value, View())))
    {
      if Converter.BASIC_REALM_KEY !in ing.annotations || Converter.BASIC_SECRET_KEY !in ing.annotations {
        return Ok(None);
      }
      var secret := GetSecret(views, Name(ing.id.namespace, ing.annotations[Converter.BASIC_SECRET_KEY]));
      if secret.None? || "auth" !in secret.value.data || !libs.isHtpasswd(secret.value.data["auth"]) {
        return Err;
      }
      return Ok(Some(BasicAuth(ing.annotations[Converter.BASIC_REALM_KEY], secret.value.data["auth"])));
    }

    /** Only the basic-auth module reads the cluster here. */
    method IngressMiddleware(libs: Converter.Libs, views: Views, m: Converter.Module, ing: Ingress)
      returns (r: Result<Option<Middleware>>)
      modifies this`usedSecrets
      ensures var spec := Converter.ModuleMiddleware(libs, views(Converter.ReadsOf(old(View()))), m, old(View()), ing);
              (r.Ok? <==> spec.Ok?) && (r.Ok? ==> spec == Ok((r.value, View())))
    {
      match m
      case EnforceHttps(byDefault) =>
        var enforce := byDefault || Converter.Annotation(ing, Converter.HTTPS_KEY) == "true";
        return Ok(if enforce then Some(HttpsRedirect(false)) else None);
      case IpAuth =>
        r := IpAuthMiddleware(libs, ing);
      case BasicAuthModule =>
        r := BasicAuthMiddleware(libs, views, ing);
      case SubrequestAuth(configs) =>
        r := ForwardAuthMiddleware(libs, configs, ing);
      case Oidc(clients, _) =>
        r := OidcMiddleware(clients, ing);
      case DenyRoute =>
        var pattern := Converter.Annotation(ing, Converter.DENY_KEY);
        if pattern == "" {
          return Ok(None);
        }
        if !libs.isPattern(pattern) {
          return Err;
        }
        return Ok(Some(DenyPath(pattern)));
      case Websocket =>
        return Ok(Some(WebsocketProxy));
      case CustomHeader =>
        var raw := Converter.Annotation(ing, Converter.RESPONSE_HEADERS_KEY);
        return Ok(if raw == "" then None else Some(ResponseHeaders(Text.Split(raw, '\n'))));
      case UpstreamHeader =>
        var raw := Converter.Annotation(ing, Converter.UPSTREAM_HEADERS_KEY);
        return Ok(if raw == "" then None else Some(UpstreamHeaders(Text.Split(raw, '\n'))));
    }

    method GetMiddlewares(libs: Converter.Libs, views: Views, modules: seq<Converter.Module>, ing: Ingress)
      returns (r: Result<seq<Middleware>>)
      modifies this`usedSecrets
      ensures r.Ok? <==> Converter.MiddlewaresSeen(libs, views, modules, [], old(View()), ing).Ok?
      ensures r.Ok? ==> Converter.MiddlewaresSeen(libs, views, modules, [], old(View()), ing) == Ok((r.value, View()))
    {
      var middlewares: seq<Middleware> := [];
      for i := 0 to |modules|
        invariant Converter.MiddlewaresSeen(libs, views, modules, [], old(View()), ing)
               == Converter.MiddlewaresSeen(libs, views, modules[i..], middlewares, View(), ing)
      {
        assert modules[i..][1..] == modules[i + 1..];
        var got := IngressMiddleware(libs, views, modules[i], ing);
        if got.Err? {
          return Err;
        }
        if got.value.Some? {
          middlewares := middlewares + [got.value.value];
        }
      }
      return Ok(middlewares);
    }

    method AddPath(
      libs: Converter.Libs, conf: Converter.ControllerConf, views: Views, ing: Ingress, hostname: string, path: HttpPath
    ) returns (ok: bool)
      requires Valid()
      modifies this, hosts.Values
      ensures Valid() && fresh(hosts.Values - old(hosts.Values))
      ensures ok <==> Converter.AddPathSeen(libs, conf, views, old(View()), ing, hostname, path).Ok?
      ensures ok ==> Converter.AddPathSeen(libs, conf, views, old(View()), ing, hostname, path) == Ok(View())
    {
      if path.service.None? {
        return true;
      }
      var middlewares := GetMiddlewares(libs, views, conf.modules, ing);
      if middlewares.Err? {
        return false;
      }
      ok := AddBackend(libs, conf, views(Reads()), middlewares.value, ing, hostname, path, path.service.value);
    }

    method AddBackend(
      libs: Converter.Libs, conf: Converter.ControllerConf, cluster: Cluster, middlewares: seq<Middleware>,
      ing: Ingress, hostname: string, path: HttpPath, backend: ServiceBackend
    ) returns (ok: bool)
      requires Valid()
      modifies this, hosts.Values
      ensures Valid() && fresh(hosts.Values - old(hosts.Values))
      ensures ok <==> Converter.AddBackend(libs, conf, cluster, old(View()), middlewares, ing, hostname, path, backend).Ok?
      ensures ok ==>
                Converter.AddBackend(libs, conf, cluster, old(View()), middlewares, ing, hostname, path, backend) == Ok(View())
    {
      var name := Name(ing.id.namespace, backend.name);
      usedServices := usedServices + [name];
      if name !in cluster.services {
        return false;
      }
      var route := BuildRoute(libs, conf, cluster.services[name], middlewares, ing, path, backend);
      if route.Err? {
        return false;
      }
      AddTo(hostname, route.value);
      return true;
    }

    method AddTo(hostname: string, route: Route)
      requires Valid()
      modifies this`hosts, hosts.Values
      ensures Valid() && fresh(hosts.Values - old(hosts.Values))
      ensures RouteLists() == old(RouteLists())[hostname := Insert(Converter.RoutesOf(old(RouteLists()), hostname), route)]
    {
      ghost var expected := RouteLists()[hostname := Insert(Converter.RoutesOf(RouteLists(), hostname), route)];
      var host;
      if hostname in hosts {
        host := hosts[hostname];
      } else {
        host := new HostConfig();
      }
      assert host.routes == Converter.RoutesOf(RouteLists(), hostname);
      host.AddRoute(route);
      hosts := hosts[hostname := host];
      assert expected.Keys == hosts.Keys;
      forall h | h in hosts ensures hosts[h].routes == expected[h] {
        if h != hostname {
          assert hosts[h] == old(hosts)[h] && hosts[h] != host;
        }
      }
    }

    method AddPaths(
      libs: Converter.Libs, conf: Converter.ControllerConf, views: Views, ing: Ingress, rule: Rule
    ) returns (ok: bool)
      requires Valid()
      modifies this, hosts.Values
      ensures Valid() && fresh(hosts.Values - old(hosts.Values))
      ensures ok <==> Converter.AddPathsSeen(libs, conf, views, old(View()), ing, rule.host, rule.paths).Ok?
      ensures ok ==> Converter.AddPathsSeen(libs, conf, views, old(View()), ing, rule.host, rule.paths) == Ok(View())
    {
      for i := 0 to |rule.paths|
        invariant Valid() && fresh(hosts.Values - old(hosts.Values))
        invariant Converter.AddPathsSeen(libs, conf, views, old(View()), ing, rule.host, rule.paths)
               == Converter.AddPathsSeen(libs, conf, views, View(), ing, rule.host, rule.paths[i..])
      {
        assert rule.paths[i..][1..] == rule.paths[i + 1..];
        var added := AddPath(libs, conf, views, ing, rule.host, rule.paths[i]);
        if !added {
          return false;
        }
      }
      return true;
    }

    method AddHostCerts(names: seq<string>, cert: Certificate)
      modifies this`certs
      ensures certs == Converter.AddCerts(old(certs), names, cert)
    {
      for i := 0 to |names|
        invariant Converter.AddCerts(old(certs), names, cert) == Converter.AddCerts(certs, names[i..], cert)
      {
        assert names[i..][1..] == names[i + 1..];
        if names[i] in certs {
          continue;
        }
        certs := certs[names[i] := cert];
      }
    }

    method AddCertificate(libs: Converter.Libs, views: Views, name: Name, names: seq<string>) returns (ok: bool)
      modifies this`usedSecrets, this`certs
      ensures var cert := Converter.CertificateFrom(libs, views(Converter.ReadsOf(old(View()))), name);
              (ok <==> cert.Ok?) && (ok ==> View() == Converter.WithCert(old(View()), name, names, cert.value))
    {
      var cluster := views(Reads());
      usedSecrets := usedSecrets + [name];
      var cert := Converter.CertificateFrom(libs, cluster, name);
      if cert.Err? {
        return false;
      }
      AddHostCerts(names, cert.value);
      return true;
    }

    method ProcessTls(libs: Converter.Libs, views: Views, ing: Ingress) returns (ok: bool)
      modifies this`usedSecrets, this`certs
      ensures ok <==> Converter.AddTlsSeen(libs, views, old(View()), ing, ing.tls).Ok?
      ensures ok ==> Converter.AddTlsSeen(libs, views, old(View()), ing, ing.tls) == Ok(View())
    {
      for i := 0 to |ing.tls|
        invariant Converter.AddTlsSeen(libs, views, old(View()), ing, ing.tls)
               == Converter.AddTlsSeen(libs, views, View(), ing, ing.tls[i..])
      {
        assert ing.tls[i..][1..] == ing.tls[i + 1..];
        var item := ing.tls[i];
        if item.secretName == "" {
          continue;
        }
        var added := AddCertificate(libs, views, Name(ing.id.namespace, item.secretName), item.hosts);
        if !added {
          return false;
        }
      }
      return true;
    }
  }

  /** The allowlist loop stops at the first part that is no prefix. */
  method IpAuthMiddleware(libs: Converter.Libs, ing: Ingress) returns (r: Result<Option<Middleware>>)
    ensures r == Converter.IpMiddleware(libs, ing)
  {
    if Converter.ALLOW_IP_KEY !in ing.annotations {
      return Ok(None);
    }
    var allowlist := ParsePrefixes(libs, Text.Split(ing.annotations[Converter.ALLOW_IP_KEY], ','), Text.SPACES);
    return if allowlist.None? then Err else Ok(Some(IpAllowlist(allowlist.value)));
  }

  method ParsePrefixes(libs: Converter.Libs, parts: seq<string>, spaces: seq<string>) returns (list: Option<seq<string>>)
    ensures var all := Text.TrimAll(parts, spaces);
            && (list.Some? <==> forall j :: 0 <= j < |all| ==> libs.isPrefix(all[j]))
            && (list.Some? ==> list.value == all)
  {
    var allowlist: seq<string> := [];
    ghost var all := Text.TrimAll(parts, spaces);
    Text.TrimAllAt(parts, spaces);
    for i := 0 to |parts|
      invariant allowlist == all[..i]
      invariant forall j :: 0 <= j < i ==> libs.isPrefix(all[j])
    {
      var v := Text.Trimmed(parts[i], spaces);
      if !libs.isPrefix(v) {
        return None;
      }
      allowlist := allowlist + [v];
    }
    return Some(allowlist);
  }

  method ForwardAuthMiddleware(libs: Converter.Libs, configs: map<string, Converter.ForwardAuthConf>, ing: Ingress)
    returns (r: Result<Option<Middleware>>)
    ensures r == Converter.ForwardMiddleware(libs, configs, ing)
  {
    var conf := None;
    if Converter.AUTH_KEY in ing.annotations {
      if ing.annotations[Converter.AUTH_KEY] !in configs {
        return Err;
      }
      conf := Some(configs[ing.annotations[Converter.AUTH_KEY]]);
    }
    if Converter.AUTH_URL_KEY in ing.annotations && Converter.AUTH_SIGNIN_KEY in ing.annotations {
      conf := Some(Converter.ForwardAuthConf(ing.annotations[Converter.AUTH_URL_KEY], ing.annotations[Converter.AUTH_SIGNIN_KEY]));
    }
    if conf.None? {
      return Ok(None);
    }
    if !libs.isUrl(conf.value.authUrl) {
      return Err;
    }
    return Ok(Some(ForwardAuth(conf.value.authUrl, conf.value.signInUrl)));
  }

  /** parseAnnotationArray: an absent or empty annotation is no requirement at all. */
  method ParseAnnotationArray(raw: string) returns (values: Option<seq<string>>)
    ensures values == Converter.RequireList(raw)
  {
    if raw == "" {
      return None;
    }
    var list := Text.ParseCommaList(raw);
    return Some(list);
  }

  method OidcMiddleware(clients: set<string>, ing: Ingress) returns (r: Result<Option<Middleware>>)
    ensures r == Converter.OidcMiddleware(clients, ing)
  {
    var name := Converter.Annotation(ing, Converter.OIDC_KEY);
    if name == "" {
      return Ok(None);
    }
    if name !in clients {
      return Err;
    }
    var groups := ParseAnnotationArray(Converter.Annotation(ing, Converter.OIDC_GROUP_KEY));
    var emails := ParseAnnotationArray(Converter.Annotation(ing, Converter.OIDC_EMAIL_KEY));
    return Ok(Some(OidcGuard(name, groups, emails)));
  }

  /** The part of addPath that looks at the service, the path type and the body limit. */
  method BuildRoute(
    libs: Converter.Libs, conf: Converter.ControllerConf, service: Service, middlewares: seq<Middleware>,
    ing: Ingress, path: HttpPath, backend: ServiceBackend
  ) returns (route: Result<Route>)
    ensures route == Converter.MakeRoute(libs, conf, service, middlewares, ing, path, backend)
  {
    var address := libs.parseAddr(service.clusterIP);
    if address.None? {
      return Err;
    }
    var port := FindPort(service.ports, backend);
    var pathType := Converter.MapPathType(path.pathType);
    if pathType.Err? {
      return Err;
    }
    var maxBody := Converter.MaxBody(conf, ing);
    if maxBody.Err? {
      return Err;
    }
    var endpoint := Endpoint(address.value, port % 65536);
    return Ok(Route(path.path, pathType.value, endpoint, middlewares, maxBody.value, ing.id));
  }

  /** The port loop of addPath. */
  method FindPort(ports: seq<ServicePort>, backend: ServiceBackend) returns (port: int)
    ensures port == Converter.ServicePortFor(ports, backend)
  {
    for i := 0 to |ports|
      invariant Converter.ServicePortFor(ports, backend) == Converter.ServicePortFor(ports[i..], backend)
    {
      if ports[i].name == backend.portName {
        return ports[i].port;
      }
      if ports[i].port == backend.portNumber {
        return ports[i].port;
      }
    }
    return 0;
  }

  /** Builds a fresh configuration; nothing that existed before the call is changed. */
  method ReconcileIngress(libs: Converter.Libs, conf: Converter.ControllerConf, views: Views, ing: Ingress)
    returns (r: Result<IngressConfiguration>)
    ensures r.Ok? <==> Converter.CompileSeen(libs, conf, views, ing).Ok?
    ensures r.Ok? ==> r.value.Valid() && fresh(r.value) && fresh(r.value.hosts.Values)
    ensures r.Ok? ==> Converter.CompileSeen(libs, conf, views, ing) == Ok(r.value.View())
  {
    var result := new IngressConfiguration();
    for i := 0 to |ing.rules|
      invariant fresh(result) && fresh(result.hosts.Values) && result.Valid()
      invariant Converter.AddRulesSeen(libs, conf, views, Converter.EMPTY_CONF, ing, ing.rules)
             == Converter.AddRulesSeen(libs, conf, views, result.View(), ing, ing.rules[i..])
    {
      assert ing.rules[i..][1..] == ing.rules[i + 1..];
      var added := result.AddPaths(libs, conf, views, ing, ing.rules[i]);
      if !added {
        return Err;
      }
    }
    var ok := result.ProcessTls(libs, views, ing);
    if !ok {
      return Err;
    }
    return Ok(result);
  }
}
