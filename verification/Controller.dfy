/** The controller object: locked operations of pkg/controller/ingress.go,
    watch handlers of reconcile.go, and getProxyConfig, on the heap. */
module Controller {
  import opened Prelude
  import opened Kube
  import opened Routing
  import opened IngressBuilder
  import Converter
  import State
  import Aggregate
  import Common

  /** The published routing configuration. */
  class RoutingConfig {
    var hosts: map<string, HostConfig>
    var certs: map<string, Certificate>
    const defaultTls: Option<Certificate>
    const tcp: seq<State.TcpProxy>
    const requestMiddlewares: seq<Middleware>
    const trustedProxies: seq<string>
    const errorPage: Option<string>

    ghost predicate Valid()
      reads this`hosts
    {
      forall a, b :: a in hosts && b in hosts && a != b ==> hosts[a] != hosts[b]
    }

    ghost function RouteLists(): map<string, seq<Route>>
      reads this`hosts, hosts.Values
    {
      map h | h in hosts :: hosts[h].routes
    }

    ghost function View(): Aggregate.ProxyConf
      reads this, hosts.Values
    {
      Aggregate.ProxyConf(RouteLists(), certs, defaultTls, tcp, requestMiddlewares, trustedProxies, errorPage)
    }

    constructor (
      defaultTls: Option<Certificate>, tcp: seq<State.TcpProxy>, requestMiddlewares: seq<Middleware>,
      trustedProxies: seq<string>, errorPage: Option<string>
    )
      ensures Valid() && hosts == map[] && certs == map[]
      ensures this.defaultTls == defaultTls && this.tcp == tcp && this.requestMiddlewares == requestMiddlewares
      ensures this.trustedProxies == trustedProxies && this.errorPage == errorPage
    {
      hosts, certs := map[], map[];
      this.defaultTls, this.tcp, this.requestMiddlewares := defaultTls, tcp, requestMiddlewares;
      this.trustedProxies, this.errorPage := trustedProxies, errorPage;
    }

    /** Adds a route to a host list that this configuration owns, creating the list on first use. */
    method AddRoute(hostname: string, route: Route)
      requires Valid()
      modifies this`hosts, hosts.Values
      ensures Valid() && fresh(hosts.Values - old(hosts.Values))
      ensures RouteLists() == old(RouteLists())[hostname := Insert(Converter.RoutesOf(old(RouteLists()), hostname), route)]
    {
      ghost var expected := RouteLists()[hostname := Insert(Converter.RoutesOf(RouteLists(), hostname), route)];
      if hostname !in hosts {
        var created := new HostConfig();
        hosts := hosts[hostname := created];
      }
      var host := hosts[hostname];
      assert host.routes == Converter.RoutesOf(old(RouteLists()), hostname);
      host.AddRoute(route);
      assert expected.Keys == hosts.Keys;
      forall h | h in hosts ensures hosts[h].routes == expected[h] {
        if h != hostname {
          assert hosts[h] == old(hosts)[h] && hosts[h] != host;
        }
      }
    }

    method MergeHost(hostname: string, routes: seq<Route>)
      requires Valid()
      modifies this`hosts, hosts.Values
      ensures Valid() && fresh(hosts.Values - old(hosts.Values))
      ensures RouteLists() == WithRoutes(old(RouteLists()), hostname, routes)
    {
      for i := 0 to |routes|
        invariant Valid() && fresh(hosts.Values - old(hosts.Values))
        invariant RouteLists() == WithRoutes(old(RouteLists()), hostname, routes[..i])
      {
        WithOneMore(old(RouteLists()), hostname, routes[..i], routes[i]);
        assert routes[..i + 1] == routes[..i] + [routes[i]];
        AddRoute(hostname, routes[i]);
      }
      assert routes[..|routes|] == routes;
    }

    /** Merges the lists of one compiled ingress, its hosts visited in any order. */
    method MergeHosts(theirs: map<string, seq<Route>>)
      requires Valid()
      modifies this`hosts, hosts.Values
      ensures Valid() && fresh(hosts.Values - old(hosts.Values))
      ensures RouteLists() == Aggregate.MergeHosts(old(RouteLists()), theirs)
    {
      ghost var own := RouteLists();
      ghost var done: map<string, seq<Route>> := map[];
      MergeNothing(own);
      var todo := theirs.Keys;
      while todo != {}
        invariant todo <= theirs.Keys
        invariant done.Keys == theirs.Keys - todo && forall h :: h in done ==> done[h] == theirs[h]
        invariant Valid() && fresh(hosts.Values - old(hosts.Values))
        invariant RouteLists() == Aggregate.MergeHosts(own, done)
        decreases todo
      {
        var h :| h in todo;
        MergeOneMore(own, done, h, theirs[h]);
        MergeHost(h, theirs[h]);
        done := done[h := theirs[h]];
        todo := todo - {h};
      }
      assert done == theirs;
    }

    method Merge(theirs: map<string, seq<Route>>, more: map<string, Certificate>)
      requires Valid()
      modifies this, hosts.Values
      ensures Valid() && fresh(hosts.Values - old(hosts.Values))
      ensures RouteLists() == Aggregate.MergeHosts(old(RouteLists()), theirs)
      ensures certs == Aggregate.MergeCerts(old(certs), more)
    {
      MergeHosts(theirs);
      MergeCerts(more);
    }

    method MergeCerts(more: map<string, Certificate>)
      modifies this`certs
      ensures certs == Aggregate.MergeCerts(old(certs), more)
    {
      var todo := more.Keys;
      while todo != {}
        invariant todo <= more.Keys
        invariant certs == Aggregate.MergeCerts(old(certs), map h | h in more && h !in todo :: more[h])
        decreases todo
      {
        var h :| h in todo;
        if h !in certs {
          certs := certs[h := more[h]];
        }
        todo := todo - {h};
      }
      assert (map h | h in more && h !in todo :: more[h]) == more;
    }
  }

  ghost function WithRoutes(lists: map<string, seq<Route>>, h: string, routes: seq<Route>): map<string, seq<Route>> {
    if routes == [] then lists else lists[h := InsertAll(Converter.RoutesOf(lists, h), routes)]
  }

  lemma WithOneMore(lists: map<string, seq<Route>>, h: string, routes: seq<Route>, r: Route)
    ensures var w := WithRoutes(lists, h, routes);
            WithRoutes(lists, h, routes + [r]) == w[h := Insert(Converter.RoutesOf(w, h), r)]
  {
    assert (routes + [r])[..|routes|] == routes;
  }

  lemma MergeNothing(own: map<string, seq<Route>>)
    ensures Aggregate.MergeHosts(own, map[]) == own
  {
    assert forall h :: h in own ==> InsertAll(own[h], []) == own[h];
  }

  lemma MergeOneMore(own: map<string, seq<Route>>, done: map<string, seq<Route>>, h: string, routes: seq<Route>)
    requires h !in done
    ensures Aggregate.MergeHosts(own, done[h := routes]) == WithRoutes(Aggregate.MergeHosts(own, done), h, routes)
  {
    var before, after := Aggregate.MergeHosts(own, done), Aggregate.MergeHosts(own, done[h := routes]);
    var expected := WithRoutes(before, h, routes);
    assert Converter.RoutesOf(before, h) == Converter.RoutesOf(own, h) by {
      assert h in own ==> InsertAll(own[h], []) == own[h];
    }
    forall g ensures (g in after <==> g in expected) && (g in after ==> after[g] == expected[g]) {
      if g == h {
        assert Converter.RoutesOf(done[h := routes], h) == routes;
      } else {
        assert Converter.RoutesOf(done[h := routes], g) == Converter.RoutesOf(done, g);
      }
    }
  }

  /** A state entry: the ingress last seen, and its compiled configuration unless irrelevant. */
  datatype EntryRef = EntryRef(ingress: Ingress, conf: IngressConfiguration?)

  /** e stands for v, and what it refers to lies within objs. */
  ghost predicate Holds(objs: set<object>, e: EntryRef, v: State.Entry)
    reads objs
  {
    && e.ingress == v.ingress
    && (e.conf == null <==> v.conf.None?)
    && (e.conf != null ==>
          && e.conf in objs && e.conf.hosts.Values <= objs
          && e.conf.Valid() && v.conf == Some(e.conf.View()))
  }

  /** The entries of refs, each stored under its own name, stand for those of vals. */
  ghost predicate AllHold(objs: set<object>, refs: map<Name, EntryRef>, vals: map<Name, State.Entry>)
    reads objs
  {
    && refs.Keys == vals.Keys
    && (forall n :: n in refs ==> refs[n].ingress.id == n && Holds(objs, refs[n], vals[n]))
  }

  lemma HoldOneMore(
    objs: set<object>, more: set<object>, refs: map<Name, EntryRef>, vals: map<Name, State.Entry>, e: EntryRef, v: State.Entry
  )
    requires AllHold(objs, refs, vals) && objs <= more && Holds(more, e, v)
    ensures AllHold(more, refs[e.ingress.id := e], vals[e.ingress.id := v])
  {
    forall n | n in refs ensures Holds(more, refs[n], vals[n]) {
      HoldsWithin(objs, more, refs[n], vals[n]);
    }
  }

  /** What a compiled configuration consists of on the heap. */
  ghost function Footprint(conf: IngressConfiguration): (objs: set<object>)
    reads conf
    ensures conf in objs && conf.hosts.Values <= objs
    ensures forall o :: o in objs ==> o is IngressConfiguration || o is HostConfig
  {
    {conf} + conf.hosts.Values
  }

  lemma ConfHolds(objs: set<object>, ing: Ingress, conf: IngressConfiguration)
    requires conf.Valid() && Footprint(conf) <= objs
    ensures Holds(objs, EntryRef(ing, conf), State.Entry(ing, Some(conf.View())))
  {
  }

  lemma HoldsWithin(objs: set<object>, more: set<object>, e: EntryRef, v: State.Entry)
    requires Holds(objs, e, v) && objs <= more
    ensures Holds(more, e, v)
  {
  }

  class IngressController {
    const controllerName: string
    const namespace: string
    var config: Option<Converter.ControllerConf>
    var classes: map<string, string>
    var ingresses: map<Name, EntryRef>
    var defaultTls: Option<Certificate>
    var tcp: seq<State.TcpProxy>
    /** The one-slot channels: whether a token is waiting. */
    var requestReconfigureChan: bool
    var requestReconcileCommonChan: bool

    /** The entries as values, and the objects that hold them. */
    ghost var entries: map<Name, State.Entry>
    ghost var repr: set<object>

    ghost predicate Valid()
      reads this`ingresses, this`entries, this`repr, repr
    {
      this !in repr && AllHold(repr, ingresses, entries)
    }

    ghost function View(): State.Ctl
      reads this
    {
      State.Ctl(config, classes, entries, defaultTls, tcp)
    }

    constructor (controllerName: string, namespace: string)
      ensures Valid() && View() == State.INITIAL && !requestReconfigureChan && !requestReconcileCommonChan
      ensures this.controllerName == controllerName && this.namespace == namespace
    {
      this.controllerName, this.namespace := controllerName, namespace;
      config, classes, ingresses, defaultTls, tcp := None, map[], map[], None, [];
      requestReconfigureChan, requestReconcileCommonChan := false, false;
      entries, repr := map[], {};
    }

    /** A send that falls through when the slot is taken. */
    method RequestReconfigure()
      modifies this`requestReconfigureChan
      ensures requestReconfigureChan
    {
      if !requestReconfigureChan {
        requestReconfigureChan := true;
      }
    }

    method RequestReconcileCommon()
      modifies this`requestReconcileCommonChan
      ensures requestReconcileCommonChan
    {
      if !requestReconcileCommonChan {
        requestReconcileCommonChan := true;
      }
    }

    predicate IsRelevant(ing: Ingress)
      reads this`classes
    {
      State.Relevant(controllerName, classes, ing)
    }

    method RemoveIngress(name: Name) returns (wasRelevant: bool)
      requires Valid()
      modifies this`ingresses, this`entries
      ensures Valid()
      ensures State.RemoveIngress(controllerName, old(View()), name) == State.Change(View(), wasRelevant)
    {
      if name !in ingresses {
        return false;
      }
      var e := ingresses[name];
      ingresses := ingresses - {name};
      entries := entries - {name};
      return IsRelevant(e.ingress);
    }

    method MarkIngressIrrelevant(ing: Ingress) returns (wasRelevant: bool)
      requires Valid()
      modifies this`ingresses, this`entries
      ensures Valid()
      ensures State.MarkIrrelevant(controllerName, old(View()), ing) == State.Change(View(), wasRelevant)
    {
      wasRelevant := ing.id in ingresses && IsRelevant(ingresses[ing.id].ingress);
      ingresses := ingresses[ing.id := EntryRef(ing, null)];
      entries := entries[ing.id := State.Entry(ing, None)];
    }

    method UpdateIngress(ing: Ingress, conf: IngressConfiguration)
      requires Valid() && conf.Valid()
      modifies this`ingresses, this`entries, this`repr
      ensures Valid()
      ensures View() == State.UpdateIngress(old(View()), ing, conf.View()).ctl
    {
      ghost var value := conf.View();
      ghost var objs := repr + Footprint(conf);
      ConfHolds(objs, ing, conf);
      HoldOneMore(repr, objs, ingresses, entries, EntryRef(ing, conf), State.Entry(ing, Some(value)));
      assert this !in objs;
      Store(ing.id, EntryRef(ing, conf), State.Entry(ing, Some(value)), objs);
    }

    /** Stores an entry that the caller knows to stand for v within objs. */
    method Store(name: Name, e: EntryRef, ghost v: State.Entry, ghost objs: set<object>)
      requires this !in objs && AllHold(objs, ingresses[name := e], entries[name := v])
      modifies this`ingresses, this`entries, this`repr
      ensures Valid() && repr == objs
      ensures ingresses == old(ingresses)[name := e] && entries == old(entries)[name := v]
    {
      ingresses := ingresses[name := e];
      entries := entries[name := v];
      repr := objs;
    }

    /** ReconcileIngress under the lock, with the publish request each outcome makes. */
    method ReconcileIngress(libs: Converter.Libs, views: Views, name: Name, got: Option<Ingress>) returns (ok: bool)
      requires Valid() && config.Some?
      requires got.Some? ==> got.value.id == name
      modifies this`ingresses, this`entries, this`repr, this`requestReconfigureChan
      ensures Valid()
      ensures match State.ReconcileIngress(libs, controllerName, old(View()), views, name, got)
              case Err => !ok && View() == old(View()) && requestReconfigureChan == old(requestReconfigureChan)
              case Ok(c) => ok && View() == c.ctl && requestReconfigureChan == (old(requestReconfigureChan) || c.request)
    {
      if got.None? {
        var relevant := RemoveIngress(name);
        RequestReconfigureWhenRelevant(relevant);
        return true;
      }
      if !IsRelevant(got.value) {
        var relevant := MarkIngressIrrelevant(got.value);
        RequestReconfigureWhenRelevant(relevant);
        return true;
      }
      ok := CompileAndStore(libs, views, got.value);
    }

    method CompileAndStore(libs: Converter.Libs, views: Views, ing: Ingress) returns (ok: bool)
      requires Valid() && config.Some?
      modifies this`ingresses, this`entries, this`repr, this`requestReconfigureChan
      ensures Valid()
      ensures match Converter.CompileSeen(libs, config.value, views, ing)
              case Err => !ok && View() == old(View()) && requestReconfigureChan == old(requestReconfigureChan)
              case Ok(c) => ok && View() == State.UpdateIngress(old(View()), ing, c).ctl && requestReconfigureChan
    {
      var compiled := IngressBuilder.ReconcileIngress(libs, config.value, views, ing);
      if compiled.Err? {
        return false;
      }
      UpdateIngress(ing, compiled.value);
      RequestReconfigure();
      return true;
    }

    method RequestReconfigureWhenRelevant(relevant: bool)
      modifies this`requestReconfigureChan
      ensures requestReconfigureChan == (old(requestReconfigureChan) || relevant)
    {
      if relevant {
        RequestReconfigure();
      }
    }

    method AddIngressClass(class_: string, controller: string)
      modifies this`classes, this`requestReconfigureChan
      ensures View() == State.AddIngressClass(old(View()), class_, controller).ctl
      ensures requestReconfigureChan && State.AddIngressClass(old(View()), class_, controller).request
    {
      classes := classes[class_ := controller];
      RequestReconfigure();
    }

    method RemoveIngressClass(class_: string)
      modifies this`classes, this`requestReconfigureChan
      ensures View() == State.RemoveIngressClass(old(View()), class_).ctl
      ensures requestReconfigureChan == (old(requestReconfigureChan) || class_ in old(classes))
      ensures State.RemoveIngressClass(old(View()), class_).request == (class_ in old(classes))
    {
      if class_ in classes {
        classes := classes - {class_};
        RequestReconfigure();
      }
    }

    /** Requests of the secret watch: every entry whose recorded secrets hold the name. */
    method RequestsForSecret(secret: Name) returns (requests: set<Name>)
      requires Valid()
      modifies this`requestReconcileCommonChan
      ensures requests == State.UsersOfSecret(View(), secret)
      ensures requestReconcileCommonChan ==
                (old(requestReconcileCommonChan)
                 || (config.Some? && ((secret.name == config.value.defaultTlsSecret && secret.namespace == namespace)
                                      || secret in config.value.usedSecrets)))
    {
      if config.Some? {
        if secret.name == config.value.defaultTlsSecret && secret.namespace == namespace {
          RequestReconcileCommon();
        }
        if secret in config.value.usedSecrets {
          RequestReconcileCommon();
        }
      }
      requests := {};
      var todo := ingresses.Keys;
      while todo != {}
        invariant todo <= ingresses.Keys
        invariant requests == State.UsersOfSecret(View(), secret) - todo
        decreases todo
      {
        var n :| n in todo;
        if ingresses[n].conf != null && secret in ingresses[n].conf.usedSecrets {
          requests := requests + {n};
        }
        todo := todo - {n};
      }
    }

    /** Requests of the service watch; a change of the upstream service requests none. */
    method RequestsForService(service: Name) returns (requests: set<Name>)
      requires Valid()
      modifies this`requestReconcileCommonChan
      ensures requests == State.UsersOfService(View(), namespace, service)
      ensures requestReconcileCommonChan ==
                (old(requestReconcileCommonChan) || State.IsUpstream(View(), namespace, service))
    {
      if config.Some? && config.value.upstreamService == Some(service.name) && service.namespace == namespace {
        RequestReconcileCommon();
        return {};
      }
      requests := {};
      var todo := ingresses.Keys;
      while todo != {}
        invariant todo <= ingresses.Keys
        invariant requests == State.UsersOfService(View(), namespace, service) - todo
        decreases todo
      {
        var n :| n in todo;
        if ingresses[n].conf != null && service in ingresses[n].conf.usedServices {
          requests := requests + {n};
        }
        todo := todo - {n};
      }
    }

    ghost function EnvWith(libs: Converter.Libs): State.Env {
      State.Env(libs, controllerName, namespace)
    }

    /** The common reconcile: every stage that succeeds has stored its part, and only the end requests a publish. */
    method ReconfigureCommon(libs: Converter.Libs, reads_: Common.CommonReads) returns (ok: bool)
      modifies this`config, this`defaultTls, this`tcp, this`requestReconfigureChan
      ensures (View(), ok) == Common.Reconfigure(EnvWith(libs), old(View()), reads_)
      ensures requestReconfigureChan == (old(requestReconfigureChan) || ok)
    {
      if reads_.loaded.None? {
        return false;
      }
      config := reads_.loaded;
      var cert := Common.DefaultTls(State.Env(libs, controllerName, namespace), config.value, reads_.tls);
      if cert.Err? {
        return false;
      }
      defaultTls := cert.value;
      var proxies := LoadTcpProxies(libs, reads_.tcp, config.value.tcpProxy);
      if proxies.Err? {
        return false;
      }
      tcp := proxies.value;
      RequestReconfigure();
      return true;
    }

    /** getProxyConfig walks the entries in any order and writes only lists it allocated itself. */
    method GetProxyConfig() returns (conf: RoutingConfig?, ghost order: seq<Name>)
      requires Valid() && config.Some?
      ensures Aggregate.IsOrder(View().entries, order)
      ensures conf == null <==> Aggregate.Assemble(View(), order) == None
      ensures conf != null ==>
                && fresh(conf) && fresh(conf.hosts.Values) && conf.Valid()
                && Aggregate.Assemble(View(), order) == Some(conf.View())
    {
      var modules := Aggregate.ConnectionModules(config.value.modules, []);
      if modules.Err? {
        order := Aggregate.ListingExists(set n | n in View().entries && View().entries[n].conf.Some?);
        return null, order;
      }
      conf := new RoutingConfig(defaultTls, tcp, modules.value, config.value.trustedProxies, config.value.errorPage);
      order := MergeEntries(conf);
    }

    method MergeEntries(conf: RoutingConfig) returns (ghost order: seq<Name>)
      requires Valid() && conf !in repr && conf.Valid() && conf.hosts == map[] && conf.certs == map[]
      modifies conf
      ensures Aggregate.IsOrder(entries, order)
      ensures fresh(conf.hosts.Values) && conf.Valid()
      ensures conf.RouteLists() == Aggregate.MergedHosts(entries, order)
      ensures conf.certs == Aggregate.MergedCerts(entries, order)
    {
      order := [];
      var todo := ingresses.Keys;
      while todo != {}
        invariant todo <= ingresses.Keys && Valid()
        invariant fresh(conf.hosts.Values) && conf.Valid()
        invariant Visited(entries, todo, order)
        invariant conf.RouteLists() == Aggregate.MergedHosts(entries, order)
        invariant conf.certs == Aggregate.MergedCerts(entries, order)
        decreases todo
      {
        var n :| n in todo;
        VisitedOneMore(entries, todo, order, n);
        todo := todo - {n};
        order := VisitEntry(conf, n, order);
      }
      VisitedAll(entries, order);
    }

    /** One turn of the loop: an entry without a configuration is skipped. */
    method VisitEntry(conf: RoutingConfig, n: Name, ghost order: seq<Name>) returns (ghost next: seq<Name>)
      requires Valid() && n in ingresses && conf.Valid() && conf !in repr && conf.hosts.Values !! repr
      requires conf.RouteLists() == Aggregate.MergedHosts(entries, order)
      requires conf.certs == Aggregate.MergedCerts(entries, order)
      modifies conf, conf.hosts.Values
      ensures Valid() && conf.Valid() && fresh(conf.hosts.Values - old(conf.hosts.Values))
      ensures next == if Aggregate.Configured(entries, n) then order + [n] else order
      ensures conf.RouteLists() == Aggregate.MergedHosts(entries, next)
      ensures conf.certs == Aggregate.MergedCerts(entries, next)
    {
      next := order;
      if ingresses[n].conf != null {
        Aggregate.MergedOneMore(entries, order, n);
        MergeEntry(conf, n);
        next := order + [n];
      }
    }

    /** Merges one compiled ingress, which stays as it is. */
    method MergeEntry(conf: RoutingConfig, n: Name)
      requires Valid() && n in ingresses && ingresses[n].conf != null
      requires conf.Valid() && conf !in repr && conf.hosts.Values !! repr
      modifies conf, conf.hosts.Values
      ensures Valid() && conf.Valid() && fresh(conf.hosts.Values - old(conf.hosts.Values))
      ensures conf.RouteLists() == Aggregate.MergeHosts(old(conf.RouteLists()), Aggregate.ConfOf(entries, n).hosts)
      ensures conf.certs == Aggregate.MergeCerts(old(conf.certs), Aggregate.ConfOf(entries, n).certs)
    {
      var c := ingresses[n].conf;
      assert Aggregate.ConfOf(entries, n) == c.View();
      conf.Merge(c.RouteLists(), c.certs);
    }
  }

  /** The loop of updateTcpProxy. */
  method LoadTcpProxies(libs: Converter.Libs, views: Views, confs: seq<Converter.TcpConf>)
    returns (r: Result<seq<State.TcpProxy>>)
    ensures r == Common.TcpProxies(libs, views, confs, [])
  {
    var proxies: seq<State.TcpProxy> := [];
    for i := 0 to |confs|
      invariant |proxies| == i
      invariant Common.TcpProxies(libs, views, confs, []) == Common.TcpProxies(libs, views, confs[i..], proxies)
    {
      assert confs[i..][1..] == confs[i + 1..];
      var endpoint := Common.AddrPort(libs, views(i), confs[i]);
      if endpoint.Err? {
        return Err;
      }
      proxies := proxies + [State.TcpProxy(confs[i].port % 65536, endpoint.value)];
    }
    return Ok(proxies);
  }

  /** order lists the configured entries that are not left to do, each once. */
  ghost predicate Visited(entries: map<Name, State.Entry>, todo: set<Name>, order: seq<Name>) {
    && (forall n :: n in order <==> Aggregate.Configured(entries, n) && n !in todo)
    && (forall i, j :: 0 <= i < j < |order| ==> order[i] != order[j])
  }

  lemma VisitedAll(entries: map<Name, State.Entry>, order: seq<Name>)
    requires Visited(entries, {}, order)
    ensures Aggregate.IsOrder(entries, order)
  {
  }

  lemma VisitedOneMore(entries: map<Name, State.Entry>, todo: set<Name>, order: seq<Name>, n: Name)
    requires Visited(entries, todo, order) && n in todo
    ensures Visited(entries, todo - {n}, if Aggregate.Configured(entries, n) then order + [n] else order)
  {
  }

  /** Published snapshots never change: a configuration published earlier and the lists cached for any ingress
      read the same after a later reconcile and a later aggregation. */
  method ReconcileAndAggregate(
    ic: IngressController, published: RoutingConfig, cached: IngressConfiguration,
    libs: Converter.Libs, views: Views, name: Name, got: Option<Ingress>
  ) returns (conf: RoutingConfig?, ghost order: seq<Name>)
    requires ic.Valid() && ic.config.Some? && (got.Some? ==> got.value.id == name)
    modifies ic
    ensures published.View() == old(published.View())
    ensures cached.View() == old(cached.View())
    ensures conf != null ==> fresh(conf) && fresh(conf.hosts.Values)
  {
    var _ := ic.ReconcileIngress(libs, views, name, got);
    conf, order := ic.GetProxyConfig();
  }
}
