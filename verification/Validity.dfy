/** Exactly which ingresses compile (pkg/controller/converter.go), said by what
    they name and what the cluster holds. */
module Validity {
  import opened Prelude
  import opened Kube
  import opened Converter
  import Guards
  import Sizes
  import Text

  /** Module m takes the annotations of the ingress as they are. */
  ghost predicate Accepts(libs: Libs, c: Cluster, ing: Ingress, m: Module) {
    match m
    case IpAuth =>
      ALLOW_IP_KEY in ing.annotations ==>
        forall list :: Guards.CommaParts(ing.annotations[ALLOW_IP_KEY], list) ==> forall i :: 0 <= i < |list| ==> libs.isPrefix(list[i])
    case BasicAuthModule =>
      BASIC_REALM_KEY in ing.annotations && BASIC_SECRET_KEY in ing.annotations ==>
        exists htpasswd :: Guards.Passwords(c, ing, htpasswd) && libs.isHtpasswd(htpasswd)
    case SubrequestAuth(configs) =>
      && (AUTH_KEY in ing.annotations ==> ing.annotations[AUTH_KEY] in configs)
      && forall authUrl, signInUrl :: Guards.AuthAddresses(configs, ing, authUrl, signInUrl) ==> libs.isUrl(authUrl)
    case Oidc(clients, _) => Annotation(ing, OIDC_KEY) != "" ==> Annotation(ing, OIDC_KEY) in clients
    case DenyRoute => Annotation(ing, DENY_KEY) != "" ==> libs.isPattern(Annotation(ing, DENY_KEY))
    case _ => true
  }

  lemma AcceptsExactly(libs: Libs, c: Cluster, m: Module, acc: IngressConf, ing: Ingress)
    ensures ModuleMiddleware(libs, c, m, acc, ing).Ok? <==> Accepts(libs, c, ing, m)
  {
    match m
    case IpAuth =>
      if ALLOW_IP_KEY in ing.annotations {
        AllowlistExactly(libs, ing);
      }
    case BasicAuthModule =>
      if BASIC_REALM_KEY in ing.annotations && BASIC_SECRET_KEY in ing.annotations {
        PasswordsExactly(libs, c, acc, ing);
      }
    case SubrequestAuth(configs) => AddressesExactly(libs, c, configs, ing);
    case _ =>
  }

  lemma AllowlistExactly(libs: Libs, ing: Ingress)
    requires ALLOW_IP_KEY in ing.annotations
    ensures IpMiddleware(libs, ing).Ok? <==>
            forall list :: Guards.CommaParts(ing.annotations[ALLOW_IP_KEY], list) ==> forall i :: 0 <= i < |list| ==> libs.isPrefix(list[i])
  {
    var raw := ing.annotations[ALLOW_IP_KEY];
    forall list ensures Guards.CommaParts(raw, list) <==> list == Text.CommaList(raw) {
      Guards.CommaPartsExactly(raw, list);
    }
    assert Guards.CommaParts(raw, Text.CommaList(raw));
  }

  lemma PasswordsExactly(libs: Libs, c: Cluster, acc: IngressConf, ing: Ingress)
    requires BASIC_REALM_KEY in ing.annotations && BASIC_SECRET_KEY in ing.annotations
    ensures BasicMiddleware(libs, c, acc, ing).Ok? <==>
            exists htpasswd :: Guards.Passwords(c, ing, htpasswd) && libs.isHtpasswd(htpasswd)
  {
    var n := Name(ing.id.namespace, ing.annotations[BASIC_SECRET_KEY]);
    if n in c.secrets && "auth" in c.secrets[n].data {
      assert Guards.Passwords(c, ing, c.secrets[n].data["auth"]);
    }
  }

  lemma AddressesExactly(libs: Libs, c: Cluster, configs: map<string, ForwardAuthConf>, ing: Ingress)
    ensures ForwardMiddleware(libs, configs, ing).Ok? <==> Accepts(libs, c, ing, SubrequestAuth(configs))
  {
    if AUTH_URL_KEY in ing.annotations && AUTH_SIGNIN_KEY in ing.annotations {
      assert Guards.AuthAddresses(configs, ing, ing.annotations[AUTH_URL_KEY], ing.annotations[AUTH_SIGNIN_KEY]);
    } else if AUTH_KEY in ing.annotations && ing.annotations[AUTH_KEY] in configs {
      var f := configs[ing.annotations[AUTH_KEY]];
      assert Guards.AuthAddresses(configs, ing, f.authUrl, f.signInUrl);
    }
  }

  lemma {:induction false} ChainAcceptsExactly(
    libs: Libs, c: Cluster, ms: seq<Module>, out: seq<Middleware>, acc: IngressConf, ing: Ingress
  )
    ensures Middlewares(libs, c, ms, out, acc, ing).Ok? <==> forall m :: m in ms ==> Accepts(libs, c, ing, m)
    decreases |ms|
  {
    if ms != [] {
      AcceptsExactly(libs, c, ms[0], acc, ing);
      assert forall m :: m in ms <==> m == ms[0] || m in ms[1..];
      if ModuleMiddleware(libs, c, ms[0], acc, ing).Ok? {
        var got := ModuleMiddleware(libs, c, ms[0], acc, ing).value;
        ChainAcceptsExactly(libs, c, ms[1..], Appended(out, got.0), got.1, ing);
      }
    }
  }

  // Paths, certificates, ingresses

  /** A path without a service is skipped. Any other needs accepting modules, a service of the ingress's own namespace
      with an address, a known path type and a readable body limit. */
  ghost predicate GoodPath(libs: Libs, conf: ControllerConf, c: Cluster, ing: Ingress, p: HttpPath) {
    p.service.Some? ==>
      && (forall m :: m in conf.modules ==> Accepts(libs, c, ing, m))
      && (var name := Name(ing.id.namespace, p.service.value.name);
          name in c.services && libs.parseAddr(c.services[name].clusterIP).Some?)
      && (p.pathType.None? || p.pathType.value in {"Exact", "Prefix", "ImplementationSpecific"})
      && (MAX_BODY_KEY in ing.annotations ==> Sizes.ParseByteSize(ing.annotations[MAX_BODY_KEY]).Ok?)
  }

  /** A TLS item without a secret is skipped. Any other needs a secret of the ingress's own namespace with a key pair. */
  ghost predicate GoodTls(libs: Libs, c: Cluster, ing: Ingress, item: TlsItem) {
    item.secretName != "" ==> exists cert :: CertificateFrom(libs, c, Name(ing.id.namespace, item.secretName)) == Ok(cert)
  }

  lemma PathExactly(libs: Libs, conf: ControllerConf, c: Cluster, acc: IngressConf, ing: Ingress, host: string, p: HttpPath)
    ensures AddPath(libs, conf, c, acc, ing, host, p).Ok? <==> GoodPath(libs, conf, c, ing, p)
  {
    ChainAcceptsExactly(libs, c, conf.modules, [], acc, ing);
  }

  lemma {:induction false} PathsExactly(
    libs: Libs, conf: ControllerConf, c: Cluster, acc: IngressConf, ing: Ingress, host: string, ps: seq<HttpPath>
  )
    ensures AddPaths(libs, conf, c, acc, ing, host, ps).Ok? <==> forall p :: p in ps ==> GoodPath(libs, conf, c, ing, p)
    decreases |ps|
  {
    if ps != [] {
      PathExactly(libs, conf, c, acc, ing, host, ps[0]);
      assert forall p :: p in ps <==> p == ps[0] || p in ps[1..];
      if AddPath(libs, conf, c, acc, ing, host, ps[0]).Ok? {
        PathsExactly(libs, conf, c, AddPath(libs, conf, c, acc, ing, host, ps[0]).value, ing, host, ps[1..]);
      }
    }
  }

  ghost predicate GoodRule(libs: Libs, conf: ControllerConf, c: Cluster, ing: Ingress, rule: Rule) {
    forall p :: p in rule.paths ==> GoodPath(libs, conf, c, ing, p)
  }

  lemma {:induction false} RulesExactly(
    libs: Libs, conf: ControllerConf, c: Cluster, acc: IngressConf, ing: Ingress, rules: seq<Rule>
  )
    ensures AddRules(libs, conf, c, acc, ing, rules).Ok? <==> forall r :: r in rules ==> GoodRule(libs, conf, c, ing, r)
    decreases |rules|
  {
    if rules != [] {
      var first := AddPaths(libs, conf, c, acc, ing, rules[0].host, rules[0].paths);
      PathsExactly(libs, conf, c, acc, ing, rules[0].host, rules[0].paths);
      assert rules[0] in rules && (first.Ok? <==> GoodRule(libs, conf, c, ing, rules[0]));
      assert forall r :: r in rules <==> r == rules[0] || r in rules[1..];
      if first.Ok? {
        RulesExactly(libs, conf, c, first.value, ing, rules[1..]);
      }
    }
  }

  lemma {:induction false} TlsExactly(libs: Libs, c: Cluster, acc: IngressConf, ing: Ingress, items: seq<TlsItem>)
    ensures AddTls(libs, c, acc, ing, items).Ok? <==> forall item :: item in items ==> GoodTls(libs, c, ing, item)
    decreases |items|
  {
    if items != [] {
      var n := Name(ing.id.namespace, items[0].secretName);
      assert forall item :: item in items <==> item == items[0] || item in items[1..];
      assert items[0] in items && (GoodTls(libs, c, ing, items[0]) <==> items[0].secretName == "" || CertificateFrom(libs, c, n).Ok?);
      if items[0].secretName == "" {
        TlsExactly(libs, c, acc, ing, items[1..]);
      } else if CertificateFrom(libs, c, n).Ok? {
        TlsExactly(libs, c, WithCert(acc, n, items[0].hosts, CertificateFrom(libs, c, n).value), ing, items[1..]);
      }
    }
  }

  /** An ingress compiles exactly when every path and every TLS item of it is good. */
  lemma CompilesExactly(libs: Libs, conf: ControllerConf, c: Cluster, ing: Ingress)
    ensures Compile(libs, conf, c, ing).Ok? <==>
            && (forall r :: r in ing.rules ==> GoodRule(libs, conf, c, ing, r))
            && (forall item :: item in ing.tls ==> GoodTls(libs, c, ing, item))
  {
    RulesExactly(libs, conf, c, EMPTY_CONF, ing, ing.rules);
    if AddRules(libs, conf, c, EMPTY_CONF, ing, ing.rules).Ok? {
      TlsExactly(libs, c, AddRules(libs, conf, c, EMPTY_CONF, ing, ing.rules).value, ing, ing.tls);
    }
  }

  // The declared routes of a valid ingress

  /** A good path with a service declares exactly one route, any other declares none. */
  lemma RouteForExactly(libs: Libs, conf: ControllerConf, c: Cluster, ing: Ingress, p: HttpPath)
    ensures |RouteFor(libs, conf, c, ing, p)| == if p.service.Some? && GoodPath(libs, conf, c, ing, p) then 1 else 0
  {
    ChainAcceptsExactly(libs, c, conf.modules, [], EMPTY_CONF, ing);
  }
}
