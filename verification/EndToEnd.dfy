/** The whole controller: cluster watch, reconciler, publisher and proxy
    sharing one state. A quiescent system routes as the cluster declares. */
module EndToEnd {
  import opened Prelude
  import opened Kube
  import opened Routing
  import opened Converter
  import opened State
  import opened Aggregate
  import opened Common
  import R = Reconciler
  import P = Publish

  datatype Whole = Whole(watch: R.Sys, pub: P.Pub)

  /** SetConfig and SetCommon of the reconciler happen through the publisher's common reconcile, and its Op steps
      through the reconciler. */
  datatype Step = Watch(w: R.Step) | Publish(p: P.Step)

  function View(s: Whole): P.Sys {
    P.Sys(s.watch.ctl, s.pub)
  }

  /** The locked operation that a reconciler step performs, if any. */
  function OpOf(env: Env, s: R.Sys, w: R.Step): Option<P.CtlOp> {
    match w
    case DeliverClass =>
      if s.pendingClasses == [] then None
      else
        (match s.pendingClasses[0]
         case Created(c, k) => Some(P.AddClass(c, k))
         case Deleted(c) => Some(P.RemoveClass(c)))
    case Finish(n, views) =>
      if n !in s.inflight || R.FinishResult(env, s, n, views).Err? then None
      else
        (match s.inflight[n]
         case None => Some(P.Removal(n))
         case Some(ing) =>
           if !Relevant(env.controller, s.ctl.classes, ing) then Some(P.Irrelevance(ing))
           else
             match CompileSeen(env.libs, s.ctl.config.value, views, ing)
             case Err => None
             case Ok(conf) => Some(P.Update(ing, conf)))
    case _ => None
  }

  /** The watch handlers ask for a common reconcile when the default or another configured secret changes, and when
      the upstream service does. */
  predicate AsksCommon(env: Env, ctl: Ctl, w: R.Step) {
    match w
    case DeliverSecret(n) =>
      ctl.config.Some? && (n == TlsName(env, ctl.config.value) || n in ctl.config.value.usedSecrets)
    case DeliverService(n) => IsUpstream(ctl, env.namespace, n)
    case _ => false
  }

  /** The stages of a common reconcile read what the client sees. */
  ghost predicate ReadsSeen(w: R.Sys, p: P.Step) {
    match p
    case UpdateTls(cache) => R.Sees(w, cache)
    case UpdateTcp(views) => R.SeesAll(w, views)
    case FailCommon(views) => R.SeesAll(w, views)
    case _ => true
  }

  ghost predicate Enabled(env: Env, s: Whole, step: Step) {
    match step
    case Watch(w) => !w.SetConfig? && !w.SetCommon? && R.Enabled(env, s.watch, w)
    case Publish(p) => !p.Op? && P.Enabled(env, View(s), p) && ReadsSeen(s.watch, p)
  }

  function Requests(env: Env, s: Whole, w: R.Step): bool {
    match OpOf(env, s.watch, w)
    case None => false
    case Some(op) => P.Perform(env.controller, s.watch.ctl, op).request
  }

  function Next(env: Env, s: Whole, step: Step): Whole
    requires Enabled(env, s, step)
  {
    match step
    case Watch(w) =>
      Whole(R.Next(env, s.watch, w),
            s.pub.(token := s.pub.token || Requests(env, s, w),
                   commonToken := s.pub.commonToken || AsksCommon(env, s.watch.ctl, w)))
    case Publish(p) =>
      var t := P.Next(env, View(s), p);
      Whole(s.watch.(ctl := t.ctl), t.pub)
  }

  ghost predicate Initial(s: Whole) {
    R.Initial(s.watch) && P.Initial(View(s))
  }

  ghost predicate IsRun(env: Env, states: seq<Whole>, steps: seq<Step>) {
    && |states| == |steps| + 1
    && Initial(states[0])
    && forall i :: 0 <= i < |steps| ==> Enabled(env, states[i], steps[i]) && states[i + 1] == Next(env, states[i], steps[i])
  }

  // The common part

  predicate ConfigKnown(s: Whole) {
    s.watch.ctl.config.Some? && !s.pub.pc.Exited?
  }

  predicate ReadsAhead(s: Whole, stage: nat) {
    s.pub.commonToken || (s.pub.pc.Common? && s.pub.pc.stage <= stage)
  }

  /** The default certificate is what the cluster gives, if it gives one. */
  ghost predicate TlsGiven(env: Env, s: Whole)
    requires s.watch.ctl.config.Some?
  {
    var given := DefaultTls(env, s.watch.ctl.config.value, s.watch.cluster);
    given.Err? || given == Ok(s.watch.ctl.defaultTls)
  }

  /** The TCP proxies are what the cluster gives, if it gives all of them. */
  ghost predicate TcpGiven(env: Env, s: Whole)
    requires s.watch.ctl.config.Some?
  {
    var given := TcpOf(env, s.watch.ctl.config.value, s.watch.cluster);
    given.Err? || given == Ok(s.watch.ctl.tcp)
  }

  ghost predicate TlsPending(env: Env, s: Whole)
    requires s.watch.ctl.config.Some?
  {
    TlsName(env, s.watch.ctl.config.value) in s.watch.pendingSecrets
  }

  ghost predicate TcpPending(env: Env, s: Whole, pending: set<Name>)
    requires s.watch.ctl.config.Some?
  {
    exists n :: n in pending && BacksTcp(s.watch.ctl.config.value, n)
  }

  /** The default certificate is as given, or will be read again. */
  ghost predicate TlsInv(env: Env, s: Whole) {
    ConfigKnown(s) ==> ReadsAhead(s, 1) || TlsPending(env, s) || TlsGiven(env, s)
  }

  /** The TCP proxies are as given, or will be read again, or a change of a TCP service is undelivered. */
  ghost predicate TcpInv(env: Env, s: Whole) {
    ConfigKnown(s) ==> ReadsAhead(s, 3) || TcpPending(env, s, s.watch.pendingServices) || TcpGiven(env, s)
  }

  // Tame steps

  /** The delivery of a TCP service asks for nothing; harmless when a read is ahead anyway, another TCP service is
      still undelivered, or the proxies are as given. */
  ghost predicate TcpHarmless(env: Env, s: Whole, n: Name) {
    ConfigKnown(s) && BacksTcp(s.watch.ctl.config.value, n) ==>
      || ReadsAhead(s, 3) || IsUpstream(s.watch.ctl, env.namespace, n)
      || TcpPending(env, s, s.watch.pendingServices - {n}) || TcpGiven(env, s)
  }

  /** A common reconcile that fails leaves unread nothing that is out of date. */
  ghost predicate FailHarmless(env: Env, s: Whole) {
    s.pub.pc.Common? && !s.pub.pc.init && s.watch.ctl.config.Some? && !s.pub.commonToken ==>
      && (s.pub.pc.stage == 0 ==> TlsPending(env, s) || TlsGiven(env, s))
      && (s.pub.pc.stage <= 1 ==> TcpPending(env, s, s.watch.pendingServices) || TcpGiven(env, s))
  }

  ghost predicate Tame(env: Env, s: Whole, step: Step) {
    match step
    case Watch(w) =>
      && R.Tame(env, s.watch, w)
      && (OpOf(env, s.watch, w).Some? ==> P.Tame(env, View(s), P.Op(OpOf(env, s.watch, w).value)))
      && (w.DeliverService? ==> TcpHarmless(env, s, w.n))
    case Publish(p) =>
      && P.Tame(env, View(s), p)
      && (p.UpdateConfig? ==> s.watch.ctl.config.None? || s.watch.ctl.config == Some(p.conf))
      && (p.FailCommon? ==> FailHarmless(env, s))
  }

  ghost predicate TameRun(env: Env, states: seq<Whole>, steps: seq<Step>) {
    IsRun(env, states, steps) && forall i :: 0 <= i < |steps| ==> Tame(env, states[i], steps[i])
  }

  ghost predicate PubInv(s: P.Sys) {
    P.Orderly(s) && P.NoneLost(s)
  }

  ghost predicate Inv(env: Env, s: Whole) {
    R.Inv(env, s.watch) && PubInv(View(s)) && TlsInv(env, s) && TcpInv(env, s)
  }

  /** A reconciler step performs its operation, and nothing else, on the shared state. */
  lemma OpIsPerformed(env: Env, s: R.Sys, w: R.Step)
    requires R.Consistent(s) && R.Enabled(env, s, w) && !w.SetConfig? && !w.SetCommon?
    ensures var t := R.Next(env, s, w);
            match OpOf(env, s, w)
            case None => t.ctl == s.ctl
            case Some(op) =>
              && t.ctl == P.Perform(env.controller, s.ctl, op).ctl
              && (op.Irrelevance? ==> !Relevant(env.controller, s.ctl.classes, op.ing))
              && (op.Update? ==> Relevant(env.controller, s.ctl.classes, op.ing))
  {
    if w.Finish? && s.ctl.config.Some? {
      assert s.inflight[w.n].Some? ==> s.inflight[w.n].value.id == w.n;
    }
  }

  lemma WatchKeepsPublished(env: Env, s: Whole, step: Step)
    requires R.Consistent(s.watch) && PubInv(View(s)) && Enabled(env, s, step) && Tame(env, s, step) && step.Watch?
    ensures PubInv(View(Next(env, s, step)))
  {
    OpIsPerformed(env, s.watch, step.w);
    var asks := AsksCommon(env, s.watch.ctl, step.w);
    var s1 := if asks then P.Next(env, View(s), P.AskCommon) else View(s);
    if asks {
      P.OrderlyKept(env, View(s), P.AskCommon);
      P.StepKeepsPublished(env, View(s), P.AskCommon);
    }
    match OpOf(env, s.watch, step.w)
    case None =>
      assert View(Next(env, s, step)) == s1;
    case Some(op) =>
      assert View(Next(env, s, step)) == P.Next(env, s1, P.Op(op));
      P.OrderlyKept(env, s1, P.Op(op));
      P.StepKeepsPublished(env, s1, P.Op(op));
  }

  // The common part over watch steps

  /** The watch step leaves alone what the common part depends on. */
  ghost predicate CommonAlike(s: Whole, t: Whole) {
    && t.watch.ctl.config == s.watch.ctl.config && t.watch.ctl.defaultTls == s.watch.ctl.defaultTls
    && t.watch.ctl.tcp == s.watch.ctl.tcp && t.pub.pc == s.pub.pc && (s.pub.commonToken ==> t.pub.commonToken)
  }

  lemma WatchCommonAlike(env: Env, s: Whole, step: Step)
    requires R.Consistent(s.watch) && Enabled(env, s, step) && step.Watch?
    ensures CommonAlike(s, Next(env, s, step))
  {
    OpIsPerformed(env, s.watch, step.w);
  }

  lemma DefaultTlsBy(env: Env, conf: ControllerConf, c: Cluster, d: Cluster)
    requires Lookup(c.secrets, TlsName(env, conf)) == Lookup(d.secrets, TlsName(env, conf))
    ensures DefaultTls(env, conf, c) == DefaultTls(env, conf, d)
  {
  }

  lemma TcpOfBy(env: Env, conf: ControllerConf, v: Views, d: Cluster)
    requires forall k, n :: BacksTcp(conf, n) ==> Lookup(v(k).services, n) == Lookup(d.services, n)
    ensures TcpProxies(env.libs, v, conf.tcpProxy, []) == TcpOf(env, conf, d)
  {
    forall k, t | t in conf.tcpProxy ensures Lookup(v(k).services, t.service) == Lookup(d.services, t.service) {
      assert BacksTcp(conf, t.service);
    }
    TcpSeen(env.libs, v, d, conf.tcpProxy, []);
  }

  lemma SecretsFrame(env: Env, w: R.Sys, step: R.Step)
    requires R.Enabled(env, w, step)
    ensures var t := R.Next(env, w, step);
            && (forall n :: n !in t.pendingSecrets ==> Lookup(t.cluster.secrets, n) == Lookup(w.cluster.secrets, n))
            && (forall n :: n in w.pendingSecrets ==> n in t.pendingSecrets || step == R.DeliverSecret(n))
  {
  }

  lemma ServicesFrame(env: Env, w: R.Sys, step: R.Step)
    requires R.Enabled(env, w, step)
    ensures var t := R.Next(env, w, step);
            && (forall n :: n !in t.pendingServices ==> Lookup(t.cluster.services, n) == Lookup(w.cluster.services, n))
            && (forall n :: n in w.pendingServices ==> n in t.pendingServices || step == R.DeliverService(n))
            && (step.DeliverService? ==> t.pendingServices == w.pendingServices - {step.n} && t.cluster == w.cluster)
  {
  }

  lemma WatchKeepsTls(env: Env, s: Whole, step: Step)
    requires R.Consistent(s.watch) && TlsInv(env, s) && Enabled(env, s, step) && step.Watch?
    ensures TlsInv(env, Next(env, s, step))
  {
    var t := Next(env, s, step);
    WatchCommonAlike(env, s, step);
    SecretsFrame(env, s.watch, step.w);
    if ConfigKnown(t) {
      var conf := s.watch.ctl.config.value;
      if !TlsPending(env, t) {
        DefaultTlsBy(env, conf, s.watch.cluster, t.watch.cluster);
      }
    }
  }

  lemma WatchKeepsTcp(env: Env, s: Whole, step: Step)
    requires R.Consistent(s.watch) && TcpInv(env, s) && Enabled(env, s, step) && Tame(env, s, step) && step.Watch?
    ensures TcpInv(env, Next(env, s, step))
  {
    var t := Next(env, s, step);
    WatchCommonAlike(env, s, step);
    ServicesFrame(env, s.watch, step.w);
    if ConfigKnown(t) && !TcpPending(env, t, t.watch.pendingServices) {
      var conf := s.watch.ctl.config.value;
      assert forall n :: BacksTcp(conf, n) ==> n !in t.watch.pendingServices;
      TcpOfBy(env, conf, Still(s.watch.cluster), t.watch.cluster);
      if TcpPending(env, s, s.watch.pendingServices) {
        var n :| n in s.watch.pendingServices && BacksTcp(conf, n);
        assert step.w == R.DeliverService(n);
      }
    }
  }

  // The common part over steps of Run

  lemma RunKeepsTls(env: Env, s: Whole, step: Step)
    requires P.Loaded(View(s)) && TlsInv(env, s) && Enabled(env, s, step) && Tame(env, s, step) && step.Publish?
    ensures TlsInv(env, Next(env, s, step))
  {
    var t := Next(env, s, step);
    match step.p
    case UpdateTls(cache) =>
      if ConfigKnown(t) && !TlsPending(env, t) {
        DefaultTlsBy(env, s.watch.ctl.config.value, cache, s.watch.cluster);
      }
    case FailCommon(views) =>
      if ConfigKnown(t) && !TlsPending(env, t) {
        assert R.Sees(s.watch, views(0));
        DefaultTlsBy(env, s.watch.ctl.config.value, views(0), s.watch.cluster);
      }
    case _ =>
  }

  lemma SeesTcp(env: Env, s: Whole, v: Views)
    requires R.SeesAll(s.watch, v) && s.watch.ctl.config.Some? && !TcpPending(env, s, s.watch.pendingServices)
    ensures TcpProxies(env.libs, v, s.watch.ctl.config.value.tcpProxy, [])
         == TcpOf(env, s.watch.ctl.config.value, s.watch.cluster)
  {
    var conf := s.watch.ctl.config.value;
    forall k, n | BacksTcp(conf, n) ensures Lookup(v(k).services, n) == Lookup(s.watch.cluster.services, n) {
      assert R.Sees(s.watch, v(k)) && n !in s.watch.pendingServices;
    }
    TcpOfBy(env, conf, v, s.watch.cluster);
  }

  lemma RunKeepsTcp(env: Env, s: Whole, step: Step)
    requires P.Loaded(View(s)) && TcpInv(env, s) && Enabled(env, s, step) && Tame(env, s, step) && step.Publish?
    ensures TcpInv(env, Next(env, s, step))
  {
    var t := Next(env, s, step);
    match step.p
    case UpdateTcp(views) =>
      if !TcpPending(env, s, s.watch.pendingServices) {
        SeesTcp(env, s, views);
      }
    case FailCommon(views) =>
      if s.watch.ctl.config.Some? && !TcpPending(env, s, s.watch.pendingServices) {
        SeesTcp(env, s, views);
      }
    case _ =>
  }

  lemma WatchKeeps(env: Env, s: Whole, step: Step)
    requires Inv(env, s) && Enabled(env, s, step) && Tame(env, s, step) && step.Watch?
    ensures Inv(env, Next(env, s, step))
  {
    R.StepKeeps(env, s.watch, step.w);
    WatchKeepsPublished(env, s, step);
    WatchKeepsTls(env, s, step);
    WatchKeepsTcp(env, s, step);
  }

  lemma PublishKeeps(env: Env, s: Whole, step: Step)
    requires Inv(env, s) && Enabled(env, s, step) && Tame(env, s, step) && step.Publish?
    ensures Inv(env, Next(env, s, step))
  {
    P.OrderlyKept(env, View(s), step.p);
    P.StepKeepsPublished(env, View(s), step.p);
    PublishKeepsWatch(env, s, step);
    RunKeepsTls(env, s, step);
    RunKeepsTcp(env, s, step);
  }

  lemma PublishKeepsWatch(env: Env, s: Whole, step: Step)
    requires R.Inv(env, s.watch) && Enabled(env, s, step) && Tame(env, s, step) && step.Publish?
    ensures R.Inv(env, Next(env, s, step).watch)
  {
    var t := Next(env, s, step);
    assert t.watch.ctl == s.watch.ctl ==> t.watch == s.watch;
    match step.p
    case UpdateConfig(conf) => R.StepKeeps(env, s.watch, R.SetConfig(conf));
    case UpdateTls(_) => R.StepKeeps(env, s.watch, R.SetCommon(t.watch.ctl.defaultTls, s.watch.ctl.tcp));
    case UpdateTcp(_) => R.StepKeeps(env, s.watch, R.SetCommon(s.watch.ctl.defaultTls, t.watch.ctl.tcp));
    case _ =>
  }

  lemma {:induction false} RunKeeps(env: Env, states: seq<Whole>, steps: seq<Step>, i: nat)
    requires TameRun(env, states, steps) && i < |states|
    ensures Inv(env, states[i])
    decreases i
  {
    if i == 0 {
      InitialInv(env, states[0]);
    } else {
      RunKeeps(env, states, steps, i - 1);
      if steps[i - 1].Watch? {
        WatchKeeps(env, states[i - 1], steps[i - 1]);
      } else {
        PublishKeeps(env, states[i - 1], steps[i - 1]);
      }
    }
  }

  lemma InitialInv(env: Env, s: Whole)
    requires Initial(s)
    ensures Inv(env, s)
  {
    R.QueueOrFresh(env, [s.watch], [], 0);
  }

  /** Nothing undelivered, queued, in flight, requested or in the channel. */
  ghost predicate Quiescent(s: Whole) {
    R.Drained(s.watch) && P.Quiet(View(s))
  }

  ghost function Installed(s: Whole): Option<ProxyConf> {
    if s.pub.installed == [] then None else s.pub.installed[|s.pub.installed| - 1]
  }

  /** In every quiescent state of every tame run, the proxy runs an aggregate of the build from scratch of the
      current cluster. */
  lemma QuiescentIsRebuild(env: Env, states: seq<Whole>, steps: seq<Step>, i: nat)
    requires TameRun(env, states, steps) && i < |states| && Quiescent(states[i])
    ensures var s := states[i];
            && s.watch.ctl.config.Some? && Installed(s).Some?
            && R.IsRebuild(env, s.watch.ctl.config, s.watch.cluster, s.watch.ctl.entries)
            && IsAggregate(Installed(s), s.watch.ctl)
  {
    RunKeeps(env, states, steps, i);
    QuiescentInv(env, states[i]);
  }

  lemma QuiescentInv(env: Env, s: Whole)
    requires Inv(env, s) && Quiescent(s)
    ensures s.watch.ctl.config.Some? && Installed(s).Some?
    ensures R.IsRebuild(env, s.watch.ctl.config, s.watch.cluster, s.watch.ctl.entries)
    ensures IsAggregate(Installed(s), s.watch.ctl)
  {
    forall n ensures R.Rebuilt(env, s.watch.ctl.config, s.watch.cluster, n) == Ok(Lookup(s.watch.ctl.entries, n)) {
      assert R.Scheduled(s.watch, n) || R.Fresh(env, s.watch, n);
    }
    P.QuietInstalled(s.pub);
    AggregateIsNotNil(Installed(s), s.watch.ctl);
  }

  /** There, the default certificate and the TCP endpoints the proxy runs are those the cluster gives, if it gives
      them. */
  lemma QuiescentCommon(env: Env, states: seq<Whole>, steps: seq<Step>, i: nat)
    requires TameRun(env, states, steps) && i < |states| && Quiescent(states[i])
    ensures var s := states[i];
            && s.watch.ctl.config.Some? && Installed(s).Some?
            && var conf := s.watch.ctl.config.value;
               && (DefaultTls(env, conf, s.watch.cluster).Ok? ==>
                     DefaultTls(env, conf, s.watch.cluster) == Ok(Installed(s).value.defaultTls))
               && ((forall t :: t in conf.tcpProxy ==> AddrPort(env.libs, s.watch.cluster, t).Ok?) ==>
                     TcpMatches(env, conf, s.watch.cluster, Installed(s).value.tcp))
  {
    RunKeeps(env, states, steps, i);
    var s := states[i];
    QuiescentInv(env, s);
    P.AggregateShows(Installed(s), s.watch.ctl);
    TcpExactly(env, s.watch.ctl.config.value, s.watch.cluster, s.watch.ctl.tcp);
  }

  /** The exclusion is exact: a delivery of a TCP service keeps the TCP promise exactly when it is harmless. */
  lemma TcpDeliveryExactly(env: Env, s: Whole, n: Name)
    requires R.Consistent(s.watch) && TcpInv(env, s) && n in s.watch.pendingServices
    ensures TcpInv(env, Next(env, s, Watch(R.DeliverService(n)))) <==> TcpHarmless(env, s, n)
  {
    var t := Next(env, s, Watch(R.DeliverService(n)));
    WatchCommonAlike(env, s, Watch(R.DeliverService(n)));
    ServicesFrame(env, s.watch, R.DeliverService(n));
    assert forall m :: m in t.watch.pendingServices <==> m in s.watch.pendingServices && m != n;
  }

  /** Likewise for a failed common reconcile and both promises about the common part. */
  lemma FailLeavesExactly(env: Env, s: Whole, v: Views)
    requires P.Loaded(View(s)) && TlsInv(env, s) && TcpInv(env, s) && Enabled(env, s, Publish(P.FailCommon(v)))
    ensures var t := Next(env, s, Publish(P.FailCommon(v)));
            TlsInv(env, t) && TcpInv(env, t) <==> FailHarmless(env, s)
  {
    if s.watch.ctl.config.Some? {
      assert R.Sees(s.watch, v(0));
      if !TlsPending(env, s) {
        DefaultTlsBy(env, s.watch.ctl.config.value, v(0), s.watch.cluster);
      }
      if !TcpPending(env, s, s.watch.pendingServices) {
        SeesTcp(env, s, v);
      }
    }
  }

  // Exactly when a TCP service change leaves a stale endpoint

  /** A change of a TCP service that is not the upstream service and backs no ingress asks for nothing: the system is
      quiescent again, and the proxies are still what the cluster gives exactly when every TCP proxy of that service
      resolves as before. */
  lemma TcpChangeExactly(env: Env, s: Whole, n: Name, svc: Option<Service>)
    requires Quiescent(s) && s.watch.ctl.config.Some? && TcpMatches(env, s.watch.ctl.config.value, s.watch.cluster, s.watch.ctl.tcp)
    requires !IsUpstream(s.watch.ctl, env.namespace, n) && R.ServiceUsers(s.watch.ctl, n) == {}
    ensures var t := Next(env, Next(env, s, Watch(R.SetService(n, svc))), Watch(R.DeliverService(n)));
            var conf := s.watch.ctl.config.value;
            && Quiescent(t) && t.watch.ctl == s.watch.ctl
            && (TcpMatches(env, conf, t.watch.cluster, t.watch.ctl.tcp) <==>
                forall p :: p in conf.tcpProxy && p.service == n ==>
                  AddrPort(env.libs, t.watch.cluster, p) == AddrPort(env.libs, s.watch.cluster, p))
  {
    var t := Next(env, Next(env, s, Watch(R.SetService(n, svc))), Watch(R.DeliverService(n)));
    assert t.watch.queue == {} && t.watch.pendingServices == {};
    var conf, tcp := s.watch.ctl.config.value, s.watch.ctl.tcp;
    assert forall p :: p in conf.tcpProxy && p.service != n ==>
      AddrPort(env.libs, t.watch.cluster, p) == AddrPort(env.libs, s.watch.cluster, p);
    ResolvesAlike(env.libs, s.watch.cluster, t.watch.cluster, conf.tcpProxy, tcp);
  }

  /** The list still matches exactly when every entry resolves alike. */
  lemma ResolvesAlike(libs: Libs, c: Cluster, d: Cluster, ts: seq<TcpConf>, ps: seq<TcpProxy>)
    requires ResolveAll(libs, c, ts, ps)
    ensures ResolveAll(libs, d, ts, ps) <==> forall t :: t in ts ==> AddrPort(libs, d, t) == AddrPort(libs, c, t)
  {
    assert forall i :: 0 <= i < |ts| ==> ts[i] in ts && Resolves(libs, c, ts[i], ps[i]);
    if ResolveAll(libs, d, ts, ps) {
      forall t | t in ts ensures AddrPort(libs, d, t) == AddrPort(libs, c, t) {
        var i :| 0 <= i < |ts| && ts[i] == t;
        assert Resolves(libs, d, ts[i], ps[i]);
      }
    }
  }

  // Routes name their ingress, on every run

  /** On every run, tame or not, compiled routes name the ingress they are stored under. */
  lemma {:induction false} RoutesNamedAlways(env: Env, states: seq<Whole>, steps: seq<Step>, i: nat)
    requires IsRun(env, states, steps) && i < |states|
    ensures P.RoutesNamed(states[i].watch.ctl.entries) && ReadsOwn(states[i].watch)
    decreases i
  {
    if i > 0 {
      RoutesNamedAlways(env, states, steps, i - 1);
      StepKeepsNamed(env, states[i - 1], steps[i - 1]);
    }
  }

  /** A reconcile in flight has read the ingress it was queued for. */
  ghost predicate ReadsOwn(w: R.Sys) {
    && w.cluster.WellFormed()
    && forall n :: n in w.inflight && w.inflight[n].Some? ==> w.inflight[n].value.id == n
  }

  lemma StepKeepsNamed(env: Env, s: Whole, step: Step)
    requires P.RoutesNamed(s.watch.ctl.entries) && ReadsOwn(s.watch) && Enabled(env, s, step)
    ensures P.RoutesNamed(Next(env, s, step).watch.ctl.entries) && ReadsOwn(Next(env, s, step).watch)
  {
    var t := Next(env, s, step);
    if step.Watch? && step.w.Finish? {
      FinishKeepsNamed(env, s.watch, step.w.n, step.w.views);
    } else {
      assert t.watch.ctl.entries == s.watch.ctl.entries;
    }
  }

  lemma FinishKeepsNamed(env: Env, w: R.Sys, n: Name, views: Views)
    requires P.RoutesNamed(w.ctl.entries) && ReadsOwn(w) && n in w.inflight && R.SeesAll(w, views)
    ensures P.RoutesNamed(R.Next(env, w, R.Finish(n, views)).ctl.entries) && ReadsOwn(R.Next(env, w, R.Finish(n, views)))
  {
    var t := R.Next(env, w, R.Finish(n, views));
    if w.ctl.config.Some? && w.inflight[n].Some? && CompileSeen(env.libs, w.ctl.config.value, views, w.inflight[n].value).Ok? {
      SeenNamed(env.libs, w.ctl.config.value, views, w.inflight[n].value);
    }
    forall m | Configured(t.ctl.entries, m) ensures NamedAfter(ConfOf(t.ctl.entries, m).hosts, m) {
      if m != n {
        assert Lookup(t.ctl.entries, m) == Lookup(w.ctl.entries, m);
        assert Configured(w.ctl.entries, m) && ConfOf(w.ctl.entries, m) == ConfOf(t.ctl.entries, m);
      }
    }
  }

  // Routing as declared

  /** What the relevant ingresses of a cluster declare for a host. */
  ghost function DeclaredIn(env: Env, conf: ControllerConf, c: Cluster, h: string): Declarations {
    map n | n in c.ingresses && Relevant(env.controller, c.classes, c.ingresses[n])
      :: Declared(env.libs, conf, c, c.ingresses[n], c.ingresses[n].rules, h)
  }

  lemma RebuildCompiles(env: Env, conf: ControllerConf, c: Cluster, entries: map<Name, Entry>, order: seq<Name>, h: string)
    requires c.WellFormed() && R.IsRebuild(env, Some(conf), c, entries) && IsOrder(entries, order)
    ensures Listing(order, DeclaredIn(env, conf, c, h).Keys)
    ensures CompiledFrom(entries, order, h, DeclaredIn(env, conf, c, h))
  {
    var decl := DeclaredIn(env, conf, c, h);
    forall n ensures Configured(entries, n) <==> n in decl {
      assert R.Rebuilt(env, Some(conf), c, n) == Ok(Lookup(entries, n));
    }
    forall n | n in order
      ensures n in decl && RoutesOf(ConfOf(entries, n).hosts, h) == InsertAll([], decl[n])
      ensures forall r: Route :: r in decl[n] ==> r.ingress == n
    {
      assert Configured(entries, n);
      assert R.Rebuilt(env, Some(conf), c, n) == Ok(Lookup(entries, n));
      CompiledHost(env.libs, conf, c, c.ingresses[n], h);
      DeclaredOwner(env.libs, conf, c, c.ingresses[n], c.ingresses[n].rules, h);
    }
  }

  /** A host has routes in the installed configuration exactly when a relevant ingress declares one for it. A lookup in
      it finds a foremost match, by path order, among everything declared for the host: the first such declaration of
      an ingress, and no other ingress has one that was visited later. Without a match it panics or misses. */
  lemma QuiescentRouting(env: Env, states: seq<Whole>, steps: seq<Step>, i: nat, h: string, raw: string)
    returns (order: seq<Name>, p: int, j: int)
    requires TameRun(env, states, steps) && i < |states| && Quiescent(states[i])
    ensures var s := states[i];
            s.watch.ctl.config.Some? && Installed(s).Some? &&
            var decl := DeclaredIn(env, s.watch.ctl.config.value, s.watch.cluster, h);
            var outcome := FirstMatch(RoutesOf(Installed(s).value.hosts, h), raw);
            && Listing(order, decl.Keys)
            && (h in Installed(s).value.hosts <==> exists n :: n in decl && decl[n] != [])
            && (SomeDeclaredMatches(decl.Keys, decl, raw) ==>
                  MatchWinsAt(order, decl, raw, p, j) && outcome == Hit(decl[order[p]][j]))
            && (!SomeDeclaredMatches(decl.Keys, decl, raw) ==>
                  outcome == if SomeDeclaredPanics(decl.Keys, decl) then Crash else Miss)
  {
    QuiescentIsRebuild(env, states, steps, i);
    RunKeeps(env, states, steps, i);
    var ctl, c := states[i].watch.ctl, states[i].watch.cluster;
    var decl := DeclaredIn(env, ctl.config.value, c, h);
    order :| IsOrder(ctl.entries, order) && Installed(states[i]) == Assemble(ctl, order);
    RebuildCompiles(env, ctl.config.value, c, ctl.entries, order, h);
    MergedHost(ctl.entries, order, h);
    p, j := LookupDeclared(ctl.entries, order, h, decl, raw);
    HostPresent(ctl.entries, order, h, decl);
  }

  ghost predicate NoneClash(decl: Declarations) {
    forall a, b, r, s :: a in decl && b in decl && a != b && r in decl[a] && s in decl[b] ==> !Clash(r, s)
  }

  /** Without clashing declarations the cluster alone decides: the first foremost match of any ingress is the outcome. */
  lemma QuiescentRoutingUnique(
    env: Env, states: seq<Whole>, steps: seq<Step>, i: nat, h: string, raw: string, n: Name, k: int
  )
    requires TameRun(env, states, steps) && i < |states| && Quiescent(states[i])
    requires states[i].watch.ctl.config.Some?
    requires var decl := DeclaredIn(env, states[i].watch.ctl.config.value, states[i].watch.cluster, h);
             && NoneClash(decl) && n in decl && IsFirstMatch(decl[n], raw, k)
             && (forall m, r :: m in decl && r in decl[m] && Matches(r, raw) ==> InPathOrder(decl[n][k], r))
    ensures Installed(states[i]).Some?
    ensures var decl := DeclaredIn(env, states[i].watch.ctl.config.value, states[i].watch.cluster, h);
            FirstMatch(RoutesOf(Installed(states[i]).value.hosts, h), raw) == Hit(decl[n][k])
  {
    var decl := DeclaredIn(env, states[i].watch.ctl.config.value, states[i].watch.cluster, h);
    var order, p, j := QuiescentRouting(env, states, steps, i, h, raw);
    assert decl[n][k] in decl[n];
    assert SomeDeclaredMatches(decl.Keys, decl, raw);
    OneWinner(order, decl, raw, p, j, n, k);
  }

  lemma OneWinner(order: seq<Name>, decl: Declarations, raw: string, p: int, j: int, n: Name, k: int)
    requires Listing(order, decl.Keys) && MatchWinsAt(order, decl, raw, p, j) && NoneClash(decl)
    requires n in decl && IsFirstMatch(decl[n], raw, k)
    requires forall m, r :: m in decl && r in decl[m] && Matches(r, raw) ==> InPathOrder(decl[n][k], r)
    ensures order[p] == n && j == k
  {
    var a, b := decl[order[p]][j], decl[n][k];
    assert order[p] in order && a in decl[order[p]] && b in decl[n] && n in order;
    assert InPathOrder(a, b) && InPathOrder(b, a);
    RankIsPathOrder(a, b);
    StopsExactly(a, raw);
    StopsExactly(b, raw);
    SameRankClash(a, b, raw);
  }

  /** n is in the cluster with a class that belongs to this controller. */
  ghost predicate OwnIngress(env: Env, c: Cluster, n: Name) {
    && n in c.ingresses
    && exists k :: k in c.classes && c.ingresses[n].className == Some(k) && c.classes[k] == env.controller
  }

  /** The installed routes of a host are exactly what the ingresses of this controller's classes declare for it. */
  lemma QuiescentRoutesExactly(env: Env, states: seq<Whole>, steps: seq<Step>, i: nat, h: string, r: Route)
    requires TameRun(env, states, steps) && i < |states| && Quiescent(states[i])
    ensures var s := states[i];
            && s.watch.ctl.config.Some? && Installed(s).Some?
            && (r in RoutesOf(Installed(s).value.hosts, h) <==>
                && OwnIngress(env, s.watch.cluster, r.ingress)
                && var ing := s.watch.cluster.ingresses[r.ingress];
                   r in Declared(env.libs, s.watch.ctl.config.value, s.watch.cluster, ing, ing.rules, h))
  {
    QuiescentIsRebuild(env, states, steps, i);
    RunKeeps(env, states, steps, i);
    var ctl, c := states[i].watch.ctl, states[i].watch.cluster;
    var decl := DeclaredIn(env, ctl.config.value, c, h);
    var order :| IsOrder(ctl.entries, order) && Installed(states[i]) == Assemble(ctl, order);
    RebuildCompiles(env, ctl.config.value, c, ctl.entries, order, h);
    MergedHost(ctl.entries, order, h);
    RoutesAreDeclared(ctl.entries, order, h, decl, r);
  }

  lemma RoutesAreDeclared(entries: map<Name, Entry>, order: seq<Name>, h: string, decl: Declarations, r: Route)
    requires CompiledFrom(entries, order, h, decl) && Listing(order, decl.Keys)
    ensures r in HostRoutes(entries, order, h) <==> r.ingress in decl && r in decl[r.ingress]
  {
    MergeIsStableSort(entries, order, h, decl);
    SameMembers(HostRoutes(entries, order, h), Flat(order, decl));
    FlatMembers(order, decl);
  }

  /** A host has an installed certificate exactly when such an ingress lists it in a TLS item with a secret. */
  lemma QuiescentCertsExactly(env: Env, states: seq<Whole>, steps: seq<Step>, i: nat, h: string)
    requires TameRun(env, states, steps) && i < |states| && Quiescent(states[i])
    ensures var s := states[i];
            && Installed(s).Some?
            && (h in Installed(s).value.certs <==> exists n :: ListsCert(env, s.watch.cluster, n, h))
  {
    QuiescentIsRebuild(env, states, steps, i);
    var ctl, c := states[i].watch.ctl, states[i].watch.cluster;
    var order :| IsOrder(ctl.entries, order) && Installed(states[i]) == Assemble(ctl, order);
    MergedCert(ctl.entries, order, h);
    RebuiltCerts(env, ctl.config.value, c, ctl.entries, order, h);
  }

  ghost predicate ListsCert(env: Env, c: Cluster, n: Name, h: string) {
    OwnIngress(env, c, n) && exists item :: item in c.ingresses[n].tls && Lists(item, h)
  }

  lemma RebuiltCerts(env: Env, conf: ControllerConf, c: Cluster, entries: map<Name, Entry>, order: seq<Name>, h: string)
    requires R.IsRebuild(env, Some(conf), c, entries) && IsOrder(entries, order)
    ensures (exists n :: n in order && h in ConfOf(entries, n).certs) <==> exists n :: ListsCert(env, c, n, h)
  {
    forall n ensures n in order && h in ConfOf(entries, n).certs <==> ListsCert(env, c, n, h) {
      RebuiltCert(env, conf, c, entries, n, h);
    }
  }

  lemma RebuiltCert(env: Env, conf: ControllerConf, c: Cluster, entries: map<Name, Entry>, n: Name, h: string)
    requires R.IsRebuild(env, Some(conf), c, entries)
    ensures Configured(entries, n) <==> OwnIngress(env, c, n)
    ensures Configured(entries, n) ==>
              (h in ConfOf(entries, n).certs <==> exists item :: item in c.ingresses[n].tls && Lists(item, h))
  {
    assert R.Rebuilt(env, Some(conf), c, n) == Ok(Lookup(entries, n));
    if Configured(entries, n) {
      var k := CompiledCert(env.libs, conf, c, c.ingresses[n], h);
    }
  }
}
