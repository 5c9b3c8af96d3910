/** The controller's state (pkg/controller/state.go) and what each locked
    operation of pkg/controller/ingress.go does to it, as values. */
module State {
  import opened Prelude
  import opened Kube
  import opened Converter

  /** The libraries, the controller's name for its classes, and the namespace it runs in. */
  datatype Env = Env(libs: Libs, controller: string, namespace: string)

  datatype Entry = Entry(ingress: Ingress, conf: Option<IngressConf>)

  datatype TcpProxy = TcpProxy(port: int, endpoint: Endpoint)

  /** k8sState without its lock and without the load-balancer status, which routing never reads. */
  datatype Ctl = Ctl(
    config: Option<ControllerConf>,
    classes: map<string, string>,
    entries: map<Name, Entry>,
    defaultTls: Option<Certificate>,
    tcp: seq<TcpProxy>)

  const INITIAL := Ctl(None, map[], map[], None, [])

  /** The ingress names a class of this controller that the controller knows. */
  predicate Relevant(controller: string, classes: map<string, string>, ing: Ingress) {
    ing.className.Some? && ing.className.value in classes && classes[ing.className.value] == controller
  }

  /** A new state, and whether the operation asked for a reconfiguration. */
  datatype Change = Change(ctl: Ctl, request: bool)

  function RemoveIngress(controller: string, s: Ctl, n: Name): Change {
    if n in s.entries then
      Change(s.(entries := s.entries - {n}), Relevant(controller, s.classes, s.entries[n].ingress))
    else Change(s, false)
  }

  function MarkIrrelevant(controller: string, s: Ctl, ing: Ingress): Change {
    Change(s.(entries := s.entries[ing.id := Entry(ing, None)]),
           ing.id in s.entries && Relevant(controller, s.classes, s.entries[ing.id].ingress))
  }

  function UpdateIngress(s: Ctl, ing: Ingress, conf: IngressConf): Change {
    Change(s.(entries := s.entries[ing.id := Entry(ing, Some(conf))]), true)
  }

  /** ReconcileIngress on what Get returned for the name and on its later reads; Err leaves the state alone and is
      retried. */
  function ReconcileIngress(
    libs: Libs, controller: string, s: Ctl, views: Views, n: Name, got: Option<Ingress>
  ): Result<Change>
    requires s.config.Some?
  {
    match got
    case None => Ok(RemoveIngress(controller, s, n))
    case Some(ing) =>
      if !Relevant(controller, s.classes, ing) then Ok(MarkIrrelevant(controller, s, ing))
      else
        var conf :- CompileSeen(libs, s.config.value, views, ing);
        Ok(UpdateIngress(s, ing, conf))
  }

  function AddIngressClass(s: Ctl, class_: string, controller: string): Change {
    Change(s.(classes := s.classes[class_ := controller]), true)
  }

  function RemoveIngressClass(s: Ctl, class_: string): Change {
    if class_ in s.classes then Change(s.(classes := s.classes - {class_}), true) else Change(s, false)
  }

  // Requeue rules of the watch handlers (pkg/controller/reconcile.go)

  function UsersOfSecret(s: Ctl, secret: Name): set<Name> {
    set n | n in s.entries && s.entries[n].conf.Some? && secret in s.entries[n].conf.value.usedSecrets
  }

  /** The handler returns before the scan when the service is the configured upstream service. */
  function UsersOfService(s: Ctl, namespace: string, service: Name): set<Name> {
    if IsUpstream(s, namespace, service) then {}
    else set n | n in s.entries && s.entries[n].conf.Some? && service in s.entries[n].conf.value.usedServices
  }

  predicate IsUpstream(s: Ctl, namespace: string, service: Name) {
    s.config.Some? && s.config.value.upstreamService == Some(service.name) && service.namespace == namespace
  }

  function IngressesOfClass(cluster: Cluster, class_: string): set<Name> {
    set n | n in cluster.ingresses && cluster.ingresses[n].className == Some(class_)
  }
}
