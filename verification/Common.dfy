/** The common reconcile of pkg/controller/controller.go: configuration,
    default certificate and TCP proxies, each read from the cluster. */
module Common {
  import opened Prelude
  import opened Kube
  import opened Converter
  import opened State

  // Default certificate

  function TlsName(env: Env, conf: ControllerConf): Name {
    Name(env.namespace, conf.defaultTlsSecret)
  }

  /** getDefaultTls: no certificate when no secret is configured. */
  function DefaultTls(env: Env, conf: ControllerConf, c: Cluster): Result<Option<Certificate>> {
    if conf.defaultTlsSecret == "" then Ok(None)
    else
      var cert :- CertificateFrom(env.libs, c, TlsName(env, conf));
      Ok(Some(cert))
  }

  // TCP proxies

  /** The first service port of that name. */
  function PortNamed(ports: seq<ServicePort>, name: string): Option<int> {
    if ports == [] then None
    else if ports[0].name == name then Some(ports[0].port)
    else PortNamed(ports[1..], name)
  }

  /** getServiceAddrPort. */
  function AddrPort(libs: Libs, c: Cluster, t: TcpConf): Result<Endpoint> {
    if t.service !in c.services then Err
    else
      var service := c.services[t.service];
      match (libs.parseAddr(service.clusterIP), PortNamed(service.ports, t.portName))
      case (Some(addr), Some(port)) => Ok(Endpoint(addr, port % 65536))
      case _ => Err
  }

  lemma {:induction false} PortNamedFirst(ports: seq<ServicePort>, name: string) returns (i: int)
    ensures i == -1 ==> PortNamed(ports, name) == None && forall j :: 0 <= j < |ports| ==> ports[j].name != name
    ensures i != -1 ==> && 0 <= i < |ports| && ports[i].name == name && PortNamed(ports, name) == Some(ports[i].port)
                        && forall j :: 0 <= j < i ==> ports[j].name != name
  {
    if ports == [] {
      i := -1;
    } else if ports[0].name == name {
      i := 0;
    } else {
      var k := PortNamedFirst(ports[1..], name);
      i := if k == -1 then -1 else k + 1;
    }
  }

  /** A TCP service resolves to its address and the first of its ports that has the configured name, in 16 bits. */
  lemma AddrPortExactly(libs: Libs, c: Cluster, t: TcpConf) returns (i: int)
    ensures AddrPort(libs, c, t).Ok? <==>
            && t.service in c.services && libs.parseAddr(c.services[t.service].clusterIP).Some?
            && exists j :: 0 <= j < |c.services[t.service].ports| && c.services[t.service].ports[j].name == t.portName
    ensures AddrPort(libs, c, t).Ok? ==>
              var service, endpoint := c.services[t.service], AddrPort(libs, c, t).value;
              && libs.parseAddr(service.clusterIP) == Some(endpoint.address)
              && 0 <= i < |service.ports| && service.ports[i].name == t.portName && endpoint.port == service.ports[i].port % 65536
              && forall j :: 0 <= j < i ==> service.ports[j].name != t.portName
  {
    i := -1;
    if t.service in c.services {
      i := PortNamedFirst(c.services[t.service].ports, t.portName);
    }
  }

  /** The default certificate: none when no secret is configured, else that of the secret of that name in the
      controller's own namespace. */
  lemma DefaultTlsExactly(env: Env, conf: ControllerConf, c: Cluster, cert: Certificate)
    ensures DefaultTls(env, conf, c) == Ok(None) <==> conf.defaultTlsSecret == ""
    ensures DefaultTls(env, conf, c) == Ok(Some(cert)) <==>
            conf.defaultTlsSecret != "" && CertificateFrom(env.libs, c, Name(env.namespace, conf.defaultTlsSecret)) == Ok(cert)
  {
  }

  /** The loop of updateTcpProxy from the list built so far; its k-th read is answered from v(k). */
  function TcpProxies(libs: Libs, v: Views, ts: seq<TcpConf>, out: seq<TcpProxy>): Result<seq<TcpProxy>>
    decreases |ts|
  {
    if ts == [] then Ok(out)
    else
      var endpoint :- AddrPort(libs, v(|out|), ts[0]);
      TcpProxies(libs, v, ts[1..], out + [TcpProxy(ts[0].port % 65536, endpoint)])
  }

  /** What the cluster gives for the configured TCP proxies. */
  function TcpOf(env: Env, conf: ControllerConf, c: Cluster): Result<seq<TcpProxy>> {
    TcpProxies(env.libs, Still(c), conf.tcpProxy, [])
  }

  ghost predicate BacksTcp(conf: ControllerConf, n: Name) {
    exists t :: t in conf.tcpProxy && t.service == n
  }

  /** p listens where t says and forwards to what its service resolves to. */
  predicate Resolves(libs: Libs, c: Cluster, t: TcpConf, p: TcpProxy) {
    p.port == t.port % 65536 && AddrPort(libs, c, t) == Ok(p.endpoint)
  }

  ghost predicate ResolveAll(libs: Libs, c: Cluster, ts: seq<TcpConf>, ps: seq<TcpProxy>) {
    |ps| == |ts| && forall i :: 0 <= i < |ts| ==> Resolves(libs, c, ts[i], ps[i])
  }

  lemma {:induction false} TcpAppends(libs: Libs, c: Cluster, ts: seq<TcpConf>, out: seq<TcpProxy>) returns (more: seq<TcpProxy>)
    ensures TcpProxies(libs, Still(c), ts, out).Ok? <==> forall t :: t in ts ==> AddrPort(libs, c, t).Ok?
    ensures TcpProxies(libs, Still(c), ts, out).Ok? ==>
              TcpProxies(libs, Still(c), ts, out).value == out + more && ResolveAll(libs, c, ts, more)
    decreases |ts|
  {
    more := [];
    if ts != [] {
      var first := AddrPort(libs, c, ts[0]);
      if first.Ok? {
        var p := TcpProxy(ts[0].port % 65536, first.value);
        var rest := TcpAppends(libs, c, ts[1..], out + [p]);
        more := [p] + rest;
        Associative(out, [p], rest);
      }
    }
  }

  lemma ResolveUnique(libs: Libs, c: Cluster, ts: seq<TcpConf>, a: seq<TcpProxy>, b: seq<TcpProxy>)
    requires ResolveAll(libs, c, ts, a) && ResolveAll(libs, c, ts, b)
    ensures a == b
  {
    forall i | 0 <= i < |a| ensures a[i] == b[i] {
      assert Resolves(libs, c, ts[i], a[i]) && Resolves(libs, c, ts[i], b[i]);
    }
  }

  /** tcp lists, for every configured proxy, its port and what its service resolves to. */
  ghost predicate TcpMatches(env: Env, conf: ControllerConf, c: Cluster, tcp: seq<TcpProxy>) {
    ResolveAll(env.libs, c, conf.tcpProxy, tcp)
  }

  /** The loop succeeds exactly when every service resolves, and with tcp exactly when tcp lists what they resolve to. */
  lemma TcpExactly(env: Env, conf: ControllerConf, c: Cluster, tcp: seq<TcpProxy>)
    ensures TcpOf(env, conf, c).Ok? <==> forall t :: t in conf.tcpProxy ==> AddrPort(env.libs, c, t).Ok?
    ensures TcpOf(env, conf, c) == Ok(tcp) <==> TcpMatches(env, conf, c, tcp)
  {
    var more := TcpAppends(env.libs, c, conf.tcpProxy, []);
    NothingBefore(more);
    if TcpMatches(env, conf, c, tcp) {
      AllResolve(env.libs, c, conf.tcpProxy, tcp);
      ResolveUnique(env.libs, c, conf.tcpProxy, tcp, more);
    }
  }

  lemma NothingBefore<T>(s: seq<T>)
    ensures [] + s == s
  {
  }

  lemma AllResolve(libs: Libs, c: Cluster, ts: seq<TcpConf>, ps: seq<TcpProxy>)
    requires ResolveAll(libs, c, ts, ps)
    ensures forall t :: t in ts ==> AddrPort(libs, c, t).Ok?
  {
    forall t | t in ts ensures AddrPort(libs, c, t).Ok? {
      var i :| 0 <= i < |ts| && ts[i] == t;
      assert Resolves(libs, c, ts[i], ps[i]);
    }
  }

  /** Snapshots that agree with c on every TCP service give what c gives. */
  lemma {:induction false} TcpSeen(libs: Libs, v: Views, c: Cluster, ts: seq<TcpConf>, out: seq<TcpProxy>)
    requires forall k, t :: t in ts ==> Lookup(v(k).services, t.service) == Lookup(c.services, t.service)
    ensures TcpProxies(libs, v, ts, out) == TcpProxies(libs, Still(c), ts, out)
    decreases |ts|
  {
    if ts != [] {
      assert ts[0] in ts;
      var first := AddrPort(libs, c, ts[0]);
      assert AddrPort(libs, v(|out|), ts[0]) == first;
      if first.Ok? {
        TcpSeen(libs, v, c, ts[1..], out + [TcpProxy(ts[0].port % 65536, first.value)]);
      }
    }
  }

  // The whole reconcile

  /** What a common reconcile reads, in the order of its stages: the configuration it could load, the cluster at the
      read of the default certificate, and the clusters at the reads of the TCP services. */
  datatype CommonReads = CommonReads(loaded: Option<ControllerConf>, tls: Cluster, tcp: Views)

  /** reconfigureControllerCommonConfig: the stages store as they go, and the first error stops. */
  function Reconfigure(env: Env, ctl: Ctl, reads_: CommonReads): (Ctl, bool) {
    match reads_.loaded
    case None => (ctl, false)
    case Some(conf) =>
      var ctl1 := ctl.(config := Some(conf));
      match DefaultTls(env, conf, reads_.tls)
      case Err => (ctl1, false)
      case Ok(cert) =>
        var ctl2 := ctl1.(defaultTls := cert);
        match TcpProxies(env.libs, reads_.tcp, conf.tcpProxy, [])
        case Err => (ctl2, false)
        case Ok(tcp) => (ctl2.(tcp := tcp), true)
  }

  /** Everything the common reconcile reads for conf is there. */
  ghost predicate CommonLoads(env: Env, conf: ControllerConf, c: Cluster) {
    DefaultTls(env, conf, c).Ok? && TcpOf(env, conf, c).Ok?
  }

  /** On a steady cluster a common reconcile succeeds exactly when the default secret holds a key pair, or none is
      configured, and every TCP service resolves; then the state holds exactly what they give. */
  lemma ReconfigureExactly(env: Env, ctl: Ctl, conf: ControllerConf, c: Cluster)
    ensures var (t, ok) := Reconfigure(env, ctl, CommonReads(Some(conf), c, Still(c)));
            && (ok <==> && (conf.defaultTlsSecret == "" || CertificateFrom(env.libs, c, TlsName(env, conf)).Ok?)
                        && forall t :: t in conf.tcpProxy ==> AddrPort(env.libs, c, t).Ok?)
            && (ok ==> TcpMatches(env, conf, c, t.tcp) && DefaultTls(env, conf, c) == Ok(t.defaultTls))
            && t.entries == ctl.entries && t.classes == ctl.classes
  {
    TcpExactly(env, conf, c, if TcpOf(env, conf, c).Ok? then TcpOf(env, conf, c).value else []);
  }
}
