/** Runs of the whole system, from the start, that end quiescent with the
    proxy running something else than the cluster says. */
module Losses {
  import opened Prelude
  import opened Kube
  import opened Routing
  import opened Converter
  import opened State
  import opened Aggregate
  import opened Common
  import opened EndToEnd
  import opened Sample
  import Progress
  import R = Reconciler
  import P = Publish

  ghost predicate Reachable(env: Env, s: Whole) {
    exists states, steps :: IsRun(env, states, steps) && states[|steps|] == s
  }

  ghost predicate TamelyReachable(env: Env, s: Whole) {
    exists states, steps :: TameRun(env, states, steps) && states[|steps|] == s
  }

  lemma Go(env: Env, s: Whole, step: Step) returns (t: Whole)
    requires TamelyReachable(env, s) && Enabled(env, s, step) && Tame(env, s, step)
    ensures t == Next(env, s, step) && TamelyReachable(env, t)
  {
    t := Next(env, s, step);
    var states, steps :| TameRun(env, states, steps) && states[|steps|] == s;
    Extended(env, states, steps, step);
    ExtendedTame(env, states, steps, step);
    assert (states + [t])[|steps + [step]|] == t;
  }

  /** A last step that need not be tame. */
  lemma GoLast(env: Env, s: Whole, step: Step) returns (t: Whole)
    requires TamelyReachable(env, s) && Enabled(env, s, step)
    ensures t == Next(env, s, step) && Reachable(env, t)
  {
    t := Next(env, s, step);
    var states, steps :| TameRun(env, states, steps) && states[|steps|] == s;
    Extended(env, states, steps, step);
    assert (states + [t])[|steps + [step]|] == t;
  }

  lemma Extended(env: Env, states: seq<Whole>, steps: seq<Step>, step: Step)
    requires IsRun(env, states, steps) && Enabled(env, states[|steps|], step)
    ensures IsRun(env, states + [Next(env, states[|steps|], step)], steps + [step])
  {
    var t := Next(env, states[|steps|], step);
    var all, every := states + [t], steps + [step];
    forall i | 0 <= i < |every| ensures Enabled(env, all[i], every[i]) && all[i + 1] == Next(env, all[i], every[i]) {
      if i < |steps| {
        assert all[i] == states[i] && all[i + 1] == states[i + 1] && every[i] == steps[i];
      } else {
        assert all[i] == states[i] && all[i + 1] == t && every[i] == step;
      }
    }
  }

  lemma ExtendedTame(env: Env, states: seq<Whole>, steps: seq<Step>, step: Step)
    requires TameRun(env, states, steps) && Enabled(env, states[|steps|], step) && Tame(env, states[|steps|], step)
    requires IsRun(env, states + [Next(env, states[|steps|], step)], steps + [step])
    ensures TameRun(env, states + [Next(env, states[|steps|], step)], steps + [step])
  {
    var all, every := states + [Next(env, states[|steps|], step)], steps + [step];
    forall i | 0 <= i < |every| ensures Tame(env, all[i], every[i]) {
      assert all[i] == states[i] && every[i] == if i < |steps| then steps[i] else step;
    }
  }

  lemma ReachedInv(env: Env, s: Whole)
    requires TamelyReachable(env, s)
    ensures Inv(env, s)
  {
    var states, steps :| TameRun(env, states, steps) && states[|steps|] == s;
    RunKeeps(env, states, steps, |steps|);
  }

  /** A quiescent state on a tame run, and what it then satisfies. */
  ghost predicate Settled(env: Env, s: Whole) {
    TamelyReachable(env, s) && Quiescent(s) && s.watch.ctl.config.Some? && s.watch.cluster.WellFormed()
  }

  // Deleting a class

  /** n is the only ingress of class c, which is this controller's. */
  ghost predicate OnlyOfClass(env: Env, c: Cluster, n: Name, k: string) {
    && n in c.ingresses && c.ingresses[n].id == n && k in c.classes && c.classes[k] == env.controller
    && IngressesOfClass(c, k) == {n}
  }

  ghost function ClassGone(s: Whole, k: string): R.Sys {
    s.watch.(cluster := s.watch.cluster.(classes := s.watch.cluster.classes - {k}),
             ctl := s.watch.ctl.(classes := s.watch.ctl.classes - {k}))
  }

  /** The class is deleted and the deletion delivered. */
  lemma DeleteClass(env: Env, s: Whole, k: string) returns (t: Whole)
    requires Settled(env, s) && k in s.watch.cluster.classes
    ensures TamelyReachable(env, t)
    ensures t == Whole(ClassGone(s, k).(classScan := Some(k)), s.pub.(token := true))
  {
    SettledClasses(env, s);
    t := Go(env, s, Watch(R.DeleteClass(k)));
    DeletionDelivered(env, s, t, k);
    t := Go(env, t, Watch(R.DeliverClass));
  }

  lemma SettledClasses(env: Env, s: Whole)
    requires Settled(env, s)
    ensures s.watch.ctl.classes == s.watch.cluster.classes
  {
    ReachedInv(env, s);
  }

  lemma DeletionDelivered(env: Env, s: Whole, t: Whole, k: string)
    requires Quiescent(s) && s.watch.ctl.classes == s.watch.cluster.classes && k in s.watch.cluster.classes
    requires t == Next(env, s, Watch(R.DeleteClass(k)))
    ensures Enabled(env, t, Watch(R.DeliverClass)) && Tame(env, t, Watch(R.DeliverClass))
    ensures Next(env, t, Watch(R.DeliverClass)) == Whole(ClassGone(s, k).(classScan := Some(k)), s.pub.(token := true))
  {
    assert t.watch.pendingClasses == [R.Deleted(k)] && [R.Deleted(k)][1..] == [];
  }

  /** Run publishes the state as it is, and the proxy installs it. */
  lemma PublishNow(env: Env, s: Whole) returns (t: Whole, order: seq<Name>)
    requires TamelyReachable(env, s) && s.pub.pc.Idle? && s.pub.token && s.pub.channel == [] && s.watch.ctl.config.Some?
    ensures TamelyReachable(env, t) && t.watch == s.watch && IsOrder(s.watch.ctl.entries, order)
    ensures t.pub.pc.Idle? && !t.pub.token && t.pub.commonToken == s.pub.commonToken && t.pub.channel == []
    ensures Installed(t) == Assemble(s.watch.ctl, order)
  {
    var entries := s.watch.ctl.entries;
    order := ListingExists(set n | n in entries && Configured(entries, n));
    assert IsOrder(entries, order);
    TokenStep(env, s);
    t := Go(env, s, Publish(P.TakeToken));
    ComputeStep(env, t, order);
    t := Go(env, t, Publish(P.Compute(order)));
    t := SendAndInstall(env, t);
  }

  lemma TokenStep(env: Env, s: Whole)
    requires s.pub.pc.Idle? && s.pub.token
    ensures Enabled(env, s, Publish(P.TakeToken)) && Tame(env, s, Publish(P.TakeToken))
    ensures Next(env, s, Publish(P.TakeToken)) == s.(pub := s.pub.(pc := P.Took, token := false))
  {
  }

  lemma ComputeStep(env: Env, s: Whole, order: seq<Name>)
    requires s.pub.pc.Took? && IsOrder(s.watch.ctl.entries, order) && s.watch.ctl.config.Some?
    ensures Enabled(env, s, Publish(P.Compute(order))) && Tame(env, s, Publish(P.Compute(order)))
    ensures var conf := Assemble(s.watch.ctl, order);
            Next(env, s, Publish(P.Compute(order)))
            == s.(pub := s.pub.(pc := P.Sending(conf), computed := s.pub.computed + [conf]))
  {
  }

  lemma SendAndInstall(env: Env, s: Whole) returns (t: Whole)
    requires TamelyReachable(env, s) && s.pub.pc.Sending? && s.pub.channel == []
    ensures TamelyReachable(env, t) && t.watch == s.watch
    ensures t.pub.pc.Idle? && t.pub.token == s.pub.token && t.pub.commonToken == s.pub.commonToken && t.pub.channel == []
    ensures Installed(t) == s.pub.pc.conf
  {
    SendStep(env, s);
    t := Go(env, s, Publish(P.Send));
    ReceiveStep(env, t);
    t := Go(env, t, Publish(P.Receive));
  }

  lemma SendStep(env: Env, s: Whole)
    requires s.pub.pc.Sending? && s.pub.channel == []
    ensures Enabled(env, s, Publish(P.Send)) && Tame(env, s, Publish(P.Send))
    ensures Next(env, s, Publish(P.Send)) == s.(pub := s.pub.(pc := P.Idle, channel := [s.pub.pc.conf]))
  {
  }

  lemma ReceiveStep(env: Env, s: Whole)
    requires |s.pub.channel| == 1
    ensures Enabled(env, s, Publish(P.Receive)) && Tame(env, s, Publish(P.Receive))
    ensures Next(env, s, Publish(P.Receive))
         == s.(pub := s.pub.(channel := [], installed := s.pub.installed + [s.pub.channel[0]]))
  {
    assert s.pub.channel[1..] == [];
  }

  /** The ingress of the class is requeued and read again. */
  lemma ReadAgain(env: Env, s: Whole, n: Name, k: string) returns (t: Whole)
    requires TamelyReachable(env, s) && s.watch.cluster.WellFormed() && s.watch.ctl.config.Some?
    requires s.watch.classScan == Some(k) && s.watch.queue == {} && s.watch.inflight == map[]
    requires n in s.watch.cluster.ingresses && IngressesOfClass(s.watch.cluster, k) == {n}
    ensures TamelyReachable(env, t) && t.pub == s.pub
    ensures t.watch == s.watch.(classScan := None, inflight := map[n := Some(s.watch.cluster.ingresses[n])])
  {
    ScanStep(env, s, n, k);
    t := Go(env, s, Watch(R.ScanClass(s.watch.cluster)));
    BeginStep(env, t, n);
    t := Go(env, t, Watch(R.Begin(n, s.watch.cluster)));
  }

  lemma ScanStep(env: Env, s: Whole, n: Name, k: string)
    requires s.watch.cluster.WellFormed() && s.watch.classScan == Some(k) && s.watch.queue == {}
    requires IngressesOfClass(s.watch.cluster, k) == {n}
    ensures Enabled(env, s, Watch(R.ScanClass(s.watch.cluster))) && Tame(env, s, Watch(R.ScanClass(s.watch.cluster)))
    ensures Next(env, s, Watch(R.ScanClass(s.watch.cluster))) == s.(watch := s.watch.(classScan := None, queue := {n}))
  {
    assert {} + {n} == {n};
  }

  lemma BeginStep(env: Env, s: Whole, n: Name)
    requires s.watch.cluster.WellFormed() && s.watch.ctl.config.Some? && s.watch.queue == {n} && s.watch.inflight == map[]
    requires n in s.watch.cluster.ingresses
    ensures Enabled(env, s, Watch(R.Begin(n, s.watch.cluster))) && Tame(env, s, Watch(R.Begin(n, s.watch.cluster)))
    ensures Next(env, s, Watch(R.Begin(n, s.watch.cluster)))
         == s.(watch := s.watch.(queue := {}, inflight := map[n := Some(s.watch.cluster.ingresses[n])]))
  {
    assert {n} - {n} == {};
  }

  /** The reconcile marks the ingress irrelevant and requests nothing. */
  lemma DropUnseen(env: Env, s: Whole, n: Name) returns (t: Whole)
    requires TamelyReachable(env, s) && s.watch.cluster.WellFormed() && s.watch.ctl.config.Some?
    requires n in s.watch.cluster.ingresses && s.watch.inflight == map[n := Some(s.watch.cluster.ingresses[n])]
    requires Lookup(s.watch.ctl.entries, n).Some? && s.watch.ctl.entries[n].ingress == s.watch.cluster.ingresses[n]
    requires !Relevant(env.controller, s.watch.ctl.classes, s.watch.cluster.ingresses[n])
    ensures Reachable(env, t) && t.pub == s.pub
    ensures t.watch == s.watch.(inflight := map[],
                                ctl := s.watch.ctl.(entries := s.watch.ctl.entries[n := Entry(s.watch.cluster.ingresses[n], None)]))
  {
    var ing := s.watch.cluster.ingresses[n];
    assert ing.id == n;
    Progress.SeesItself(s.watch);
    t := GoLast(env, s, Watch(R.Finish(n, Still(s.watch.cluster))));
    assert s.watch.inflight - {n} == map[];
  }

  /** What a quiescent state holds for an ingress of this controller. */
  lemma SettledEntry(env: Env, s: Whole, n: Name, k: string, h: string)
    requires Settled(env, s) && OnlyOfClass(env, s.watch.cluster, n, k)
    requires var ing := s.watch.cluster.ingresses[n];
             Declared(env.libs, s.watch.ctl.config.value, s.watch.cluster, ing, ing.rules, h) != []
    ensures Configured(s.watch.ctl.entries, n) && s.watch.ctl.entries[n].ingress == s.watch.cluster.ingresses[n]
    ensures RoutesOf(ConfOf(s.watch.ctl.entries, n).hosts, h) != []
    ensures NamedAfter(ConfOf(s.watch.ctl.entries, n).hosts, n)
    ensures s.watch.cluster.ingresses[n].className == Some(k)
  {
    var c, conf, ing := s.watch.cluster, s.watch.ctl.config.value, s.watch.cluster.ingresses[n];
    ReachedInv(env, s);
    QuiescentInv(env, s);
    assert n in IngressesOfClass(c, k);
    assert R.Rebuilt(env, s.watch.ctl.config, c, n) == Ok(Lookup(s.watch.ctl.entries, n));
    CompiledHost(env.libs, conf, c, ing, h);
    CompileStill(env.libs, conf, c, ing);
    SeenNamed(env.libs, conf, Still(c), ing);
    InsertAllPermutes([], Declared(env.libs, conf, c, ing, ing.rules, h));
    assert |InsertAll([], Declared(env.libs, conf, c, ing, ing.rules, h))| == |multiset(InsertAll([], Declared(env.libs, conf, c, ing, ing.rules, h)))|;
  }

  /** Deleting the class of an ingress with a route, from any quiescent state in which it is the only ingress of that
      class, can end quiescent with the proxy still routing the host to it, though no route of it is declared. */
  lemma ClassDeletionLost(env: Env, s: Whole, n: Name, k: string, h: string) returns (t: Whole, r: Route)
    requires Settled(env, s) && OnlyOfClass(env, s.watch.cluster, n, k)
    requires var ing := s.watch.cluster.ingresses[n];
             Declared(env.libs, s.watch.ctl.config.value, s.watch.cluster, ing, ing.rules, h) != []
    ensures Reachable(env, t) && Quiescent(t)
    ensures t.watch.cluster == s.watch.cluster.(classes := s.watch.cluster.classes - {k})
    ensures Installed(t).Some? && r in RoutesOf(Installed(t).value.hosts, h) && r.ingress == n
    ensures !OwnIngress(env, t.watch.cluster, n) && !Configured(t.watch.ctl.entries, n)
  {
    SettledEntry(env, s, n, k, h);
    t := DeleteClass(env, s, k);
    var order;
    t, order := PublishNow(env, t);
    r := RoutesOf(ConfOf(s.watch.ctl.entries, n).hosts, h)[0];
    InstalledRoute(t, t.watch.ctl, order, n, h, r);
    t := ReadAgain(env, t, n, k);
    t := DropUnseen(env, t, n);
  }

  lemma InstalledRoute(t: Whole, ctl: Ctl, order: seq<Name>, n: Name, h: string, r: Route)
    requires ctl.config.Some? && IsOrder(ctl.entries, order) && Installed(t) == Assemble(ctl, order)
    requires Configured(ctl.entries, n) && r in RoutesOf(ConfOf(ctl.entries, n).hosts, h)
    ensures Installed(t).Some? && r in RoutesOf(Installed(t).value.hosts, h)
  {
    assert IsAggregate(Installed(t), ctl);
    P.AggregateHasRoute(Installed(t), ctl, h, r);
  }

  // A common reconcile that fails half-way

  ghost predicate Unused(s: Whole, secret: Name, service: Name) {
    UsersOfSecret(s.watch.ctl, secret) == {} && R.ServiceUsers(s.watch.ctl, service) == {}
  }

  /** The default secret changes, and the handler asks for a common reconcile. */
  lemma ChangeSecret(env: Env, s: Whole, n: Name, secret: Secret) returns (t: Whole)
    requires Settled(env, s) && n == TlsName(env, s.watch.ctl.config.value) && UsersOfSecret(s.watch.ctl, n) == {}
    ensures TamelyReachable(env, t) && t.pub == s.pub.(commonToken := true)
    ensures t.watch == s.watch.(cluster := s.watch.cluster.(secrets := s.watch.cluster.secrets[n := secret]))
  {
    SecretStep(env, s, n, secret);
    t := Go(env, s, Watch(R.SetSecret(n, Some(secret))));
    t := Go(env, t, Watch(R.DeliverSecret(n)));
  }

  lemma SecretStep(env: Env, s: Whole, n: Name, secret: Secret)
    requires R.Drained(s.watch) && s.watch.ctl.config.Some?
    requires n == TlsName(env, s.watch.ctl.config.value) && UsersOfSecret(s.watch.ctl, n) == {}
    ensures var set_, deliver := Watch(R.SetSecret(n, Some(secret))), Watch(R.DeliverSecret(n));
            && Enabled(env, s, set_) && Tame(env, s, set_)
            && var t := Next(env, s, set_);
               && Enabled(env, t, deliver) && Tame(env, t, deliver)
               && Next(env, t, deliver) == Whole(
                    s.watch.(cluster := s.watch.cluster.(secrets := s.watch.cluster.secrets[n := secret])),
                    s.pub.(commonToken := true))
  {
    var t := Next(env, s, Watch(R.SetSecret(n, Some(secret))));
    assert t.watch.pendingSecrets == {n} && {n} - {n} == {};
  }

  /** The service of a TCP proxy goes away; nothing more is asked for. */
  lemma DropService(env: Env, s: Whole, n: Name) returns (t: Whole)
    requires TamelyReachable(env, s) && R.Drained(s.watch) && s.pub.commonToken && s.watch.ctl.config.Some?
    requires !IsUpstream(s.watch.ctl, env.namespace, n) && R.ServiceUsers(s.watch.ctl, n) == {}
    ensures TamelyReachable(env, t) && t.pub == s.pub
    ensures t.watch == s.watch.(cluster := s.watch.cluster.(services := s.watch.cluster.services - {n}))
  {
    t := Go(env, s, Watch(R.SetService(n, None)));
    t := Go(env, t, Watch(R.DeliverService(n)));
    assert t.watch.pendingServices == {} && t.watch.queue == {};
  }

  /** The common reconcile stores the new certificate before it meets the missing service. */
  lemma StoreCertificate(env: Env, s: Whole) returns (t: Whole)
    requires TamelyReachable(env, s) && s.pub.pc.Idle? && s.pub.commonToken && s.watch.ctl.config.Some?
    requires s.watch.cluster.WellFormed() && DefaultTls(env, s.watch.ctl.config.value, s.watch.cluster).Ok?
    ensures TamelyReachable(env, t)
    ensures t.watch == s.watch.(ctl := s.watch.ctl.(
                         defaultTls := DefaultTls(env, s.watch.ctl.config.value, s.watch.cluster).value))
    ensures t.pub == s.pub.(commonToken := false, pc := P.RunPc.Common(3, false, P.CommonOf(s.watch.ctl)))
  {
    t := BeginCommon(env, s);
    TlsStep(env, t);
    t := Go(env, t, Publish(P.UpdateTls(s.watch.cluster)));
    StatusStep(env, t);
    t := Go(env, t, Publish(P.UpdateStatus));
  }

  lemma BeginCommon(env: Env, s: Whole) returns (t: Whole)
    requires TamelyReachable(env, s) && s.pub.pc.Idle? && s.pub.commonToken && s.watch.ctl.config.Some?
    ensures TamelyReachable(env, t) && t.watch == s.watch
    ensures t.pub == s.pub.(commonToken := false, pc := P.RunPc.Common(1, false, P.CommonOf(s.watch.ctl)))
  {
    TakeCommonStep(env, s);
    t := Go(env, s, Publish(P.TakeCommon));
    ReloadStep(env, t);
    t := Go(env, t, Publish(P.UpdateConfig(s.watch.ctl.config.value)));
  }

  lemma TakeCommonStep(env: Env, s: Whole)
    requires s.pub.pc.Idle? && s.pub.commonToken
    ensures Enabled(env, s, Publish(P.TakeCommon)) && Tame(env, s, Publish(P.TakeCommon))
    ensures Next(env, s, Publish(P.TakeCommon))
         == s.(pub := s.pub.(commonToken := false, pc := P.RunPc.Common(0, false, P.CommonOf(s.watch.ctl))))
  {
  }

  /** Loading the configuration that is stored already changes nothing. */
  lemma ReloadStep(env: Env, s: Whole)
    requires P.AtStage(s.pub, 0) && s.watch.ctl.config.Some?
    ensures var step := Publish(P.UpdateConfig(s.watch.ctl.config.value));
            Enabled(env, s, step) && Tame(env, s, step) && Next(env, s, step) == s.(pub := s.pub.(pc := P.NextStage(s.pub.pc)))
  {
    assert s.watch.ctl.(config := Some(s.watch.ctl.config.value)) == s.watch.ctl;
  }

  lemma TlsStep(env: Env, s: Whole)
    requires P.AtStage(s.pub, 1) && s.watch.ctl.config.Some? && s.watch.cluster.WellFormed()
    requires DefaultTls(env, s.watch.ctl.config.value, s.watch.cluster).Ok?
    ensures var step := Publish(P.UpdateTls(s.watch.cluster));
            && Enabled(env, s, step) && Tame(env, s, step)
            && Next(env, s, step) == Whole(
                 s.watch.(ctl := s.watch.ctl.(defaultTls := DefaultTls(env, s.watch.ctl.config.value, s.watch.cluster).value)),
                 s.pub.(pc := P.NextStage(s.pub.pc)))
  {
  }

  lemma StatusStep(env: Env, s: Whole)
    requires P.AtStage(s.pub, 2)
    ensures var step := Publish(P.UpdateStatus);
            Enabled(env, s, step) && Tame(env, s, step) && Next(env, s, step) == s.(pub := s.pub.(pc := P.NextStage(s.pub.pc)))
  {
  }

  lemma MissingTcp(env: Env, conf: ControllerConf, c: Cluster, p: TcpConf)
    requires p in conf.tcpProxy && p.service !in c.services
    ensures TcpOf(env, conf, c).Err?
  {
    TcpExactly(env, conf, c, []);
    assert AddrPort(env.libs, c, p).Err?;
  }

  /** From any quiescent state with a default certificate and a TCP proxy: a new certificate, and then a common
      reconcile that fails on the missing TCP service, ends quiescent with the proxy serving the old certificate. */
  lemma FailedReconcileLost(env: Env, s: Whole, secret: Secret, p: TcpConf, cert: Certificate) returns (t: Whole)
    requires Settled(env, s) && s.watch.ctl.config.value.defaultTlsSecret != "" && p in s.watch.ctl.config.value.tcpProxy
    requires !IsUpstream(s.watch.ctl, env.namespace, p.service)
    requires Unused(s, TlsName(env, s.watch.ctl.config.value), p.service)
    requires var conf := s.watch.ctl.config.value;
             DefaultTls(env, conf, s.watch.cluster.(secrets := s.watch.cluster.secrets[TlsName(env, conf) := secret])) == Ok(Some(cert))
    requires s.watch.ctl.defaultTls != Some(cert)
    ensures Reachable(env, t) && Quiescent(t) && t.watch.ctl.config == s.watch.ctl.config
    ensures DefaultTls(env, s.watch.ctl.config.value, t.watch.cluster) == Ok(Some(cert))
    ensures Installed(t).Some? && Installed(t).value.defaultTls == s.watch.ctl.defaultTls != Some(cert)
  {
    SettledCommon(env, s);
    t := RenewAndDrop(env, s, secret, p.service);
    t := StoreAndFail(env, t, p);
  }

  lemma RenewAndDrop(env: Env, s: Whole, secret: Secret, service: Name) returns (t: Whole)
    requires Settled(env, s) && !IsUpstream(s.watch.ctl, env.namespace, service)
    requires Unused(s, TlsName(env, s.watch.ctl.config.value), service)
    ensures TamelyReachable(env, t) && t.pub == s.pub.(commonToken := true)
    ensures t.watch == s.watch.(cluster := t.watch.cluster) && t.watch.cluster.WellFormed() && service !in t.watch.cluster.services
    ensures var conf := s.watch.ctl.config.value;
            DefaultTls(env, conf, t.watch.cluster)
            == DefaultTls(env, conf, s.watch.cluster.(secrets := s.watch.cluster.secrets[TlsName(env, conf) := secret]))
  {
    var conf := s.watch.ctl.config.value;
    t := ChangeSecret(env, s, TlsName(env, conf), secret);
    var renewed := t.watch.cluster;
    t := DropService(env, t, service);
    DefaultTlsBy(env, conf, t.watch.cluster, renewed);
  }

  lemma StoreAndFail(env: Env, s: Whole, p: TcpConf) returns (t: Whole)
    requires TamelyReachable(env, s) && s.pub.pc.Idle? && s.pub.commonToken && s.watch.ctl.config.Some?
    requires s.watch.cluster.WellFormed() && DefaultTls(env, s.watch.ctl.config.value, s.watch.cluster).Ok?
    requires p in s.watch.ctl.config.value.tcpProxy && p.service !in s.watch.cluster.services
    ensures Reachable(env, t) && t.pub == s.pub.(commonToken := false)
    ensures t.watch == s.watch.(ctl := s.watch.ctl.(
                         defaultTls := DefaultTls(env, s.watch.ctl.config.value, s.watch.cluster).value))
  {
    t := StoreCertificate(env, s);
    t := FailAtTcp(env, t, p);
  }

  /** What the proxy runs in a quiescent state is what the controller holds. */
  lemma SettledCommon(env: Env, s: Whole)
    requires Settled(env, s)
    ensures Inv(env, s) && Installed(s).Some?
    ensures Installed(s).value.defaultTls == s.watch.ctl.defaultTls && Installed(s).value.tcp == s.watch.ctl.tcp
  {
    ReachedInv(env, s);
    QuiescentInv(env, s);
    P.AggregateShows(Installed(s), s.watch.ctl);
  }

  lemma FailAtTcp(env: Env, s: Whole, p: TcpConf) returns (t: Whole)
    requires TamelyReachable(env, s) && s.watch.cluster.WellFormed() && s.watch.ctl.config.Some?
    requires s.pub.pc.Common? && s.pub.pc.stage == 3 && !s.pub.pc.init
    requires p in s.watch.ctl.config.value.tcpProxy && p.service !in s.watch.cluster.services
    ensures Reachable(env, t) && t == s.(pub := s.pub.(pc := P.Idle))
  {
    MissingTcp(env, s.watch.ctl.config.value, s.watch.cluster, p);
    Progress.SeesItself(s.watch);
    t := GoLast(env, s, Publish(P.FailCommon(Still(s.watch.cluster))));
  }

  // A TCP service that moves

  /** From any quiescent state, a TCP service that moves leaves the proxy forwarding to the old endpoint. */
  lemma TcpMoveLost(env: Env, s: Whole, p: TcpConf, svc: Service) returns (t: Whole)
    requires Settled(env, s) && p in s.watch.ctl.config.value.tcpProxy
    requires CommonLoads(env, s.watch.ctl.config.value, s.watch.cluster)
    requires !IsUpstream(s.watch.ctl, env.namespace, p.service) && R.ServiceUsers(s.watch.ctl, p.service) == {}
    requires var moved := s.watch.cluster.(services := s.watch.cluster.services[p.service := svc]);
             AddrPort(env.libs, moved, p).Ok? && AddrPort(env.libs, moved, p) != AddrPort(env.libs, s.watch.cluster, p)
    ensures Reachable(env, t) && Quiescent(t) && t.watch.ctl == s.watch.ctl
    ensures AddrPort(env.libs, t.watch.cluster, p).Ok?
    ensures Installed(t).Some? && !TcpMatches(env, s.watch.ctl.config.value, t.watch.cluster, Installed(t).value.tcp)
  {
    SettledCommon(env, s);
    MovedMatches(env, s, p, svc);
    t := Go(env, s, Watch(R.SetService(p.service, Some(svc))));
    t := GoLast(env, t, Watch(R.DeliverService(p.service)));
  }

  lemma MovedMatches(env: Env, s: Whole, p: TcpConf, svc: Service)
    requires Inv(env, s) && Quiescent(s) && s.watch.ctl.config.Some? && p in s.watch.ctl.config.value.tcpProxy
    requires CommonLoads(env, s.watch.ctl.config.value, s.watch.cluster)
    requires !IsUpstream(s.watch.ctl, env.namespace, p.service) && R.ServiceUsers(s.watch.ctl, p.service) == {}
    requires var moved := s.watch.cluster.(services := s.watch.cluster.services[p.service := svc]);
             AddrPort(env.libs, moved, p).Ok? && AddrPort(env.libs, moved, p) != AddrPort(env.libs, s.watch.cluster, p)
    ensures var t := Next(env, Next(env, s, Watch(R.SetService(p.service, Some(svc)))), Watch(R.DeliverService(p.service)));
            && Quiescent(t) && t.watch.ctl == s.watch.ctl && t.pub == s.pub && AddrPort(env.libs, t.watch.cluster, p).Ok?
            && !TcpMatches(env, s.watch.ctl.config.value, t.watch.cluster, s.watch.ctl.tcp)
  {
    TcpExactly(env, s.watch.ctl.config.value, s.watch.cluster, s.watch.ctl.tcp);
    TcpChangeExactly(env, s, p.service, Some(svc));
  }

  // The sample cluster

  ghost function SampleStart(): Whole {
    Whole(R.Sys(CLUSTER, INITIAL, {SITE}, {}, {}, [R.Created("public", "sample")], None, {}, map[]),
          P.Pub(false, false, P.NotStarted, [], [], []))
  }

  /** Init, delivery, compilation and publication of the sample, on a run from the start. */
  lemma SampleSettled() returns (s: Whole)
    ensures Settled(SampleEnv(), s) && s.watch.cluster == CLUSTER && s.watch.ctl.config == Some(CONF)
    ensures s.watch.ctl.defaultTls == Some(Certificate("old", "key"))
    ensures Lookup(s.watch.ctl.entries, SITE) == Some(Entry(SITE_INGRESS, Some(SampleCompiled())))
    ensures forall n :: n in s.watch.ctl.entries ==> n == SITE
  {
    var env, s0 := SampleEnv(), SampleStart();
    assert R.ApplyAll(map[], s0.watch.pendingClasses) == R.Apply(map[], s0.watch.pendingClasses[0]) == CLUSTER.classes;
    SampleCompiles(CONF);
    SampleLoads();
    assert Progress.Compiles(env, CONF, CLUSTER);
    var states, steps := Progress.StartupConverges(env, CONF, s0);
    s := states[|steps|];
    SampleEntries(s);
  }

  lemma SampleEntries(s: Whole)
    requires R.IsRebuild(SampleEnv(), Some(CONF), CLUSTER, s.watch.ctl.entries)
    ensures Lookup(s.watch.ctl.entries, SITE) == Some(Entry(SITE_INGRESS, Some(SampleCompiled())))
    ensures forall n :: n in s.watch.ctl.entries ==> n == SITE
  {
    var env := SampleEnv();
    SampleCompiles(CONF);
    assert R.Rebuilt(env, Some(CONF), CLUSTER, SITE) == Ok(Lookup(s.watch.ctl.entries, SITE));
    forall n | n in s.watch.ctl.entries ensures n == SITE {
      assert R.Rebuilt(env, Some(CONF), CLUSTER, n) == Ok(Lookup(s.watch.ctl.entries, n));
    }
  }

  lemma SampleDeclares()
    ensures Declared(SampleEnv().libs, CONF, CLUSTER, SITE_INGRESS, SITE_INGRESS.rules, "example.com") != []
  {
    var libs := SampleEnv().libs;
    PlainMiddlewares(libs, CLUSTER, CONF.modules, [], EMPTY_CONF, SITE_INGRESS);
    SampleRoute(CONF, Middlewares(libs, CLUSTER, CONF.modules, [], EMPTY_CONF, SITE_INGRESS).value.0);
    assert RouteFor(libs, CONF, CLUSTER, SITE_INGRESS, SITE_PATH) != [];
    assert SITE_INGRESS.rules[0] == SITE_RULE && SITE_RULE.paths[0] == SITE_PATH;
    assert DeclaredPaths(libs, CONF, CLUSTER, SITE_INGRESS, SITE_RULE.paths) != [];
  }

  /** A run of the whole system from the start that ends quiescent while the proxy still routes example.com to an
      ingress whose class is gone. */
  lemma ClassRemovalReachable() returns (t: Whole, r: Route)
    ensures Reachable(SampleEnv(), t) && Quiescent(t)
    ensures Installed(t).Some? && r in RoutesOf(Installed(t).value.hosts, "example.com") && r.ingress == SITE
    ensures !OwnIngress(SampleEnv(), t.watch.cluster, SITE)
  {
    var s := SampleSettled();
    SampleDeclares();
    assert IngressesOfClass(CLUSTER, "public") == {SITE};
    t, r := ClassDeletionLost(SampleEnv(), s, SITE, "public", "example.com");
  }

  lemma SampleUnused(s: Whole)
    requires Lookup(s.watch.ctl.entries, SITE) == Some(Entry(SITE_INGRESS, Some(SampleCompiled())))
    requires forall n :: n in s.watch.ctl.entries ==> n == SITE
    ensures Unused(s, CERT, DB)
  {
    SampleCompiles(CONF);
    assert DB != WEB;
  }

  /** A run of the whole system from the start that ends quiescent while the proxy serves the old default
      certificate: the common reconcile stored the new one and failed on a deleted TCP service. */
  lemma FailCommonReachable() returns (t: Whole)
    ensures Reachable(SampleEnv(), t) && Quiescent(t)
    ensures DefaultTls(SampleEnv(), CONF, t.watch.cluster) == Ok(Some(Certificate("new", "key")))
    ensures Installed(t).Some? && Installed(t).value.defaultTls == Some(Certificate("old", "key"))
  {
    var s := SampleSettled();
    SampleUnused(s);
    assert TlsName(SampleEnv(), CONF) == CERT && DB_PROXY in CONF.tcpProxy;
    t := FailedReconcileLost(SampleEnv(), s, NEW_SECRET, DB_PROXY, Certificate("new", "key"));
  }

  const MOVED_DB := Service("10.0.0.3", [ServicePort("pg", 5432)])

  /** A run of the whole system from the start that ends quiescent while the proxy forwards TCP to the old address. */
  lemma TcpStaleReachable() returns (t: Whole)
    ensures Reachable(SampleEnv(), t) && Quiescent(t) && AddrPort(SampleEnv().libs, t.watch.cluster, DB_PROXY).Ok?
    ensures Installed(t).Some? && !TcpMatches(SampleEnv(), CONF, t.watch.cluster, Installed(t).value.tcp)
  {
    var s := SampleSettled();
    SampleUnused(s);
    SampleLoads();
    SampleEndpoint(CLUSTER);
    assert PortNamed(MOVED_DB.ports, "pg") == Some(5432) && DB_PROXY in CONF.tcpProxy;
    t := TcpMoveLost(SampleEnv(), s, DB_PROXY, MOVED_DB);
  }
}
