/** The reconciler as an incremental build: cluster changes, watch handlers
    and reconciles interleave, and every ingress is queued, about to be
    queued, or compiled exactly as a build from scratch would compile it. */
module Reconciler {
  import opened Prelude
  import opened Kube
  import opened Converter
  import opened State

  datatype ClassEvent = Created(name: string, controller: string) | Deleted(name: string)

  /** pending…: changes the watch has not delivered yet. classScan: the class whose handler has updated the
      state but not yet listed the ingresses to requeue. inflight: what Get returned to a running reconcile. */
  datatype Sys = Sys(
    cluster: Cluster,
    ctl: Ctl,
    pendingIngresses: set<Name>,
    pendingServices: set<Name>,
    pendingSecrets: set<Name>,
    pendingClasses: seq<ClassEvent>,
    classScan: Option<string>,
    queue: set<Name>,
    inflight: map<Name, Option<Ingress>>)

  datatype Step =
    | PutIngress(ing: Ingress)
    | DropIngress(n: Name)
    | SetService(n: Name, svc: Option<Service>)
    | SetSecret(n: Name, secret: Option<Secret>)
    | CreateClass(class_: string, controller: string)
    | DeleteClass(class_: string)
    | DeliverIngress(n: Name)
    | DeliverService(n: Name)
    | DeliverSecret(n: Name)
    | DeliverClass
    | ScanClass(cache: Cluster)
    | SetConfig(conf: ControllerConf)
    | SetCommon(defaultTls: Option<Certificate>, tcp: seq<TcpProxy>)
    | Begin(n: Name, cache: Cluster)
    | Finish(n: Name, views: Views)

  /** What a client read may return: the cached object is current unless its change is still undelivered. */
  ghost predicate Sees(s: Sys, cache: Cluster) {
    && cache.WellFormed()
    && (forall n :: n !in s.pendingIngresses ==> Lookup(cache.ingresses, n) == Lookup(s.cluster.ingresses, n))
    && (forall n :: n !in s.pendingServices ==> Lookup(cache.services, n) == Lookup(s.cluster.services, n))
    && (forall n :: n !in s.pendingSecrets ==> Lookup(cache.secrets, n) == Lookup(s.cluster.secrets, n))
  }

  /** Each read of a reconcile may see the cluster at another moment. */
  ghost predicate SeesAll(s: Sys, views: Views) {
    forall k :: Sees(s, views(k))
  }

  function Assign<K, V>(m: map<K, V>, k: K, v: Option<V>): map<K, V> {
    match v
    case None => m - {k}
    case Some(x) => m[k := x]
  }

  function Apply(classes: map<string, string>, e: ClassEvent): map<string, string> {
    match e
    case Created(name, controller) => classes[name := controller]
    case Deleted(name) => classes - {name}
  }

  function ApplyAll(classes: map<string, string>, es: seq<ClassEvent>): map<string, string>
    decreases |es|
  {
    if es == [] then classes else ApplyAll(Apply(classes, es[0]), es[1..])
  }

  /** The class handler's state update. */
  function ClassChange(ctl: Ctl, e: ClassEvent): Change {
    match e
    case Created(name, controller) => AddIngressClass(ctl, name, controller)
    case Deleted(name) => RemoveIngressClass(ctl, name)
  }

  ghost predicate Enabled(env: Env, s: Sys, step: Step) {
    match step
    case CreateClass(c, _) => c !in s.cluster.classes
    case DeleteClass(c) => c in s.cluster.classes
    case DeliverIngress(n) => n in s.pendingIngresses
    case DeliverService(n) => n in s.pendingServices
    case DeliverSecret(n) => n in s.pendingSecrets
    case DeliverClass => s.pendingClasses != [] && s.classScan.None?
    case ScanClass(cache) => s.classScan.Some? && Sees(s, cache)
    case Begin(n, cache) => n in s.queue && n !in s.inflight && Sees(s, cache)
    case Finish(n, views) => n in s.inflight && SeesAll(s, views)
    case _ => true
  }

  /** A reconcile that has read its ingress takes the lock. The missing-configuration case panics in the source. */
  function FinishResult(env: Env, s: Sys, n: Name, views: Views): Result<Change>
    requires n in s.inflight
  {
    if s.ctl.config.None? then Err
    else ReconcileIngress(env.libs, env.controller, s.ctl, views, n, s.inflight[n])
  }

  function Next(env: Env, s: Sys, step: Step): Sys
    requires Enabled(env, s, step)
  {
    match step
    case PutIngress(ing) =>
      s.(cluster := s.cluster.(ingresses := s.cluster.ingresses[ing.id := ing]),
         pendingIngresses := s.pendingIngresses + {ing.id})
    case DropIngress(n) =>
      s.(cluster := s.cluster.(ingresses := s.cluster.ingresses - {n}), pendingIngresses := s.pendingIngresses + {n})
    case SetService(n, svc) =>
      s.(cluster := s.cluster.(services := Assign(s.cluster.services, n, svc)), pendingServices := s.pendingServices + {n})
    case SetSecret(n, secret) =>
      s.(cluster := s.cluster.(secrets := Assign(s.cluster.secrets, n, secret)), pendingSecrets := s.pendingSecrets + {n})
    case CreateClass(c, k) =>
      s.(cluster := s.cluster.(classes := s.cluster.classes[c := k]), pendingClasses := s.pendingClasses + [Created(c, k)])
    case DeleteClass(c) =>
      s.(cluster := s.cluster.(classes := s.cluster.classes - {c}), pendingClasses := s.pendingClasses + [Deleted(c)])
    case DeliverIngress(n) =>
      s.(queue := s.queue + {n}, pendingIngresses := s.pendingIngresses - {n})
    case DeliverService(n) =>
      s.(queue := s.queue + UsersOfService(s.ctl, env.namespace, n), pendingServices := s.pendingServices - {n})
    case DeliverSecret(n) =>
      s.(queue := s.queue + UsersOfSecret(s.ctl, n), pendingSecrets := s.pendingSecrets - {n})
    case DeliverClass =>
      var e := s.pendingClasses[0];
      s.(ctl := ClassChange(s.ctl, e).ctl, pendingClasses := s.pendingClasses[1..], classScan := Some(e.name))
    case ScanClass(cache) =>
      s.(queue := s.queue + IngressesOfClass(cache, s.classScan.value), classScan := None)
    case SetConfig(conf) => s.(ctl := s.ctl.(config := Some(conf)))
    case SetCommon(defaultTls, tcp) => s.(ctl := s.ctl.(defaultTls := defaultTls, tcp := tcp))
    case Begin(n, cache) =>
      if s.ctl.config.None? then s
      else s.(queue := s.queue - {n}, inflight := s.inflight[n := Lookup(cache.ingresses, n)])
    case Finish(n, views) =>
      var done := s.(inflight := s.inflight - {n});
      match FinishResult(env, s, n, views)
      case Err => done.(queue := done.queue + {n})
      case Ok(change) => done.(ctl := change.ctl)
  }

  ghost predicate Initial(s: Sys) {
    && s.cluster.WellFormed()
    && s.ctl == INITIAL
    && s.pendingIngresses == s.cluster.ingresses.Keys
    && ApplyAll(map[], s.pendingClasses) == s.cluster.classes
    && s.classScan.None? && s.queue == {} && s.inflight == map[]
  }

  /** The steps the freshness theorem is about: the configuration is set once, and no ingress is backed by the
      service whose handler returns early. */
  ghost predicate Tame(env: Env, s: Sys, step: Step) {
    match step
    case DeliverService(n) => !IsUpstream(s.ctl, env.namespace, n) || ServiceUsers(s.ctl, n) == {}
    case SetConfig(conf) => s.ctl.config.None? || s.ctl.config == Some(conf)
    case _ => true
  }

  function ServiceUsers(ctl: Ctl, service: Name): set<Name> {
    set n | n in ctl.entries && ctl.entries[n].conf.Some? && service in ctl.entries[n].conf.value.usedServices
  }

  ghost predicate IsRun(env: Env, states: seq<Sys>, steps: seq<Step>) {
    && |states| == |steps| + 1
    && Initial(states[0])
    && forall i :: 0 <= i < |steps| ==>
         Enabled(env, states[i], steps[i]) && states[i + 1] == Next(env, states[i], steps[i])
  }

  ghost predicate TameRun(env: Env, states: seq<Sys>, steps: seq<Step>) {
    IsRun(env, states, steps) && forall i :: 0 <= i < |steps| ==> Tame(env, states[i], steps[i])
  }

  // The simple rebuild

  /** The entry a build from scratch gives a name: absent, unconfigured, or compiled; Err when it does not compile. */
  ghost function Rebuilt(env: Env, config: Option<ControllerConf>, c: Cluster, n: Name): Result<Option<Entry>> {
    if n !in c.ingresses then Ok(None)
    else
      var ing := c.ingresses[n];
      if !Relevant(env.controller, c.classes, ing) then Ok(Some(Entry(ing, None)))
      else if config.None? then Err
      else
        match Compile(env.libs, config.value, c, ing)
        case Err => Err
        case Ok(conf) => Ok(Some(Entry(ing, Some(conf))))
  }

  ghost predicate Fresh(env: Env, s: Sys, n: Name) {
    Rebuilt(env, s.ctl.config, s.cluster, n) == Ok(Lookup(s.ctl.entries, n))
  }

  // Why a stale entry will be looked at again

  ghost predicate ClassAwaits(s: Sys, c: string) {
    s.classScan == Some(c) || exists e :: e in s.pendingClasses && e.name == c
  }

  ghost predicate AwaitsClass(s: Sys, n: Name) {
    && n in s.cluster.ingresses && s.cluster.ingresses[n].className.Some?
    && ClassAwaits(s, s.cluster.ingresses[n].className.value)
  }

  ghost predicate AwaitsRead(s: Sys, n: Name) {
    && n in s.ctl.entries && s.ctl.entries[n].conf.Some?
    && ((exists m :: m in s.pendingSecrets && m in s.ctl.entries[n].conf.value.usedSecrets)
        || (exists m :: m in s.pendingServices && m in s.ctl.entries[n].conf.value.usedServices))
  }

  ghost predicate Scheduled(s: Sys, n: Name) {
    n in s.queue || n in s.inflight || n in s.pendingIngresses || AwaitsClass(s, n) || AwaitsRead(s, n)
  }

  ghost predicate QueuedOrFresh(env: Env, s: Sys) {
    forall n :: Scheduled(s, n) || Fresh(env, s, n)
  }

  ghost predicate Consistent(s: Sys) {
    && s.cluster.WellFormed()
    && ApplyAll(s.ctl.classes, s.pendingClasses) == s.cluster.classes
    && (s.ctl.config.None? ==> s.ctl.entries == map[] && s.inflight == map[])
    && (forall n :: n in s.inflight ==>
          && (s.inflight[n].Some? ==> s.inflight[n].value.id == n)
          && (n in s.queue || n in s.pendingIngresses || s.inflight[n] == Lookup(s.cluster.ingresses, n)))
  }

  ghost predicate Inv(env: Env, s: Sys) {
    Consistent(s) && QueuedOrFresh(env, s)
  }

  // Classes

  lemma {:induction false} ApplyLast(classes: map<string, string>, es: seq<ClassEvent>, e: ClassEvent)
    ensures ApplyAll(classes, es + [e]) == Apply(ApplyAll(classes, es), e)
    decreases |es|
  {
    if es == [] {
      assert es + [e] == [e];
    } else {
      ApplyLast(Apply(classes, es[0]), es[1..], e);
      assert (es + [e])[1..] == es[1..] + [e];
    }
  }

  lemma {:induction false} ApplyOthers(classes: map<string, string>, es: seq<ClassEvent>, c: string)
    requires forall e :: e in es ==> e.name != c
    ensures Lookup(ApplyAll(classes, es), c) == Lookup(classes, c)
    decreases |es|
  {
    if es != [] {
      assert es[0].name != c;
      ApplyOthers(Apply(classes, es[0]), es[1..], c);
    }
  }

  /** Relevance in the controller's state is relevance in the cluster, unless a class change is under way. */
  lemma RelevanceSettled(env: Env, s: Sys, ing: Ingress)
    requires ApplyAll(s.ctl.classes, s.pendingClasses) == s.cluster.classes
    requires ing.className.Some? ==> !ClassAwaits(s, ing.className.value)
    ensures Relevant(env.controller, s.ctl.classes, ing) <==> Relevant(env.controller, s.cluster.classes, ing)
  {
    if ing.className.Some? {
      ApplyOthers(s.ctl.classes, s.pendingClasses, ing.className.value);
    }
  }

  // Steps keep the invariant

  lemma IngressChangeKeeps(env: Env, s: Sys, step: Step)
    requires Inv(env, s) && Enabled(env, s, step) && (step.PutIngress? || step.DropIngress?)
    ensures Inv(env, Next(env, s, step))
  {
    var t := Next(env, s, step);
    forall n ensures Scheduled(t, n) || Fresh(env, t, n) {
      if n !in t.pendingIngresses {
        assert Scheduled(s, n) || Fresh(env, s, n);
        RebuiltSameIngress(env, s.ctl.config, s.cluster, t.cluster, n);
      }
    }
  }

  lemma RebuiltSameIngress(env: Env, config: Option<ControllerConf>, c: Cluster, d: Cluster, n: Name)
    requires Lookup(c.ingresses, n) == Lookup(d.ingresses, n)
    requires c.classes == d.classes && c.services == d.services && c.secrets == d.secrets
    ensures Rebuilt(env, config, c, n) == Rebuilt(env, config, d, n)
  {
    if n in c.ingresses && config.Some? {
      CompileSameObjects(env, config.value, c, d, c.ingresses[n]);
    }
  }

  lemma CompileSameObjects(env: Env, conf: ControllerConf, c: Cluster, d: Cluster, ing: Ingress)
    requires c.services == d.services && c.secrets == d.secrets
    ensures Compile(env.libs, conf, c, ing) == Compile(env.libs, conf, d, ing)
  {
    if Compile(env.libs, conf, c, ing).Ok? {
      CompileDependsOnReads(env.libs, conf, c, d, ing);
    } else if Compile(env.libs, conf, d, ing).Ok? {
      CompileDependsOnReads(env.libs, conf, d, c, ing);
    }
  }

  /** A service or secret change leaves a fresh entry fresh unless the entry recorded reading that object. */
  lemma FreshUnlessRead(env: Env, s: Sys, t: Sys, n: Name)
    requires Fresh(env, s, n)
    requires t.ctl == s.ctl && t.cluster.ingresses == s.cluster.ingresses && t.cluster.classes == s.cluster.classes
    requires forall m :: m !in t.pendingServices ==> Lookup(t.cluster.services, m) == Lookup(s.cluster.services, m)
    requires forall m :: m !in t.pendingSecrets ==> Lookup(t.cluster.secrets, m) == Lookup(s.cluster.secrets, m)
    ensures AwaitsRead(t, n) || Fresh(env, t, n)
  {
    if n in s.cluster.ingresses && Relevant(env.controller, s.cluster.classes, s.cluster.ingresses[n]) && !AwaitsRead(t, n) {
      CompileDependsOnReads(env.libs, s.ctl.config.value, s.cluster, t.cluster, s.cluster.ingresses[n]);
    }
  }

  lemma ObjectChangeKeeps(env: Env, s: Sys, step: Step)
    requires Inv(env, s) && Enabled(env, s, step) && (step.SetService? || step.SetSecret?)
    ensures Inv(env, Next(env, s, step))
  {
    var t := Next(env, s, step);
    forall n ensures Scheduled(t, n) || Fresh(env, t, n) {
      assert Scheduled(s, n) || Fresh(env, s, n);
      if Fresh(env, s, n) {
        FreshUnlessRead(env, s, t, n);
      }
    }
  }

  lemma ClassChangeKeeps(env: Env, s: Sys, step: Step)
    requires Inv(env, s) && Enabled(env, s, step) && (step.CreateClass? || step.DeleteClass?)
    ensures Inv(env, Next(env, s, step))
  {
    var t := Next(env, s, step);
    var e := t.pendingClasses[|s.pendingClasses|];
    ApplyLast(s.ctl.classes, s.pendingClasses, e);
    assert forall x :: x in s.pendingClasses ==> x in t.pendingClasses;
    assert e in t.pendingClasses;
    forall n ensures Scheduled(t, n) || Fresh(env, t, n) {
      assert Scheduled(s, n) || Fresh(env, s, n);
      if Fresh(env, s, n) && n in s.cluster.ingresses && s.cluster.ingresses[n].className != Some(e.name) && s.ctl.config.Some? {
        CompileSameObjects(env, s.ctl.config.value, s.cluster, t.cluster, s.cluster.ingresses[n]);
      }
    }
  }

  lemma DeliveryKeeps(env: Env, s: Sys, step: Step)
    requires Inv(env, s) && Enabled(env, s, step) && Tame(env, s, step)
    requires step.DeliverIngress? || step.DeliverService? || step.DeliverSecret?
    ensures Inv(env, Next(env, s, step))
  {
    var t := Next(env, s, step);
    forall n ensures Scheduled(t, n) || Fresh(env, t, n) {
      assert Scheduled(s, n) || Fresh(env, s, n);
      if AwaitsRead(s, n) && !AwaitsRead(t, n) {
        assert n in t.queue;
      }
    }
  }

  lemma DeliverClassKeeps(env: Env, s: Sys, step: Step)
    requires Inv(env, s) && Enabled(env, s, step) && step.DeliverClass?
    ensures Inv(env, Next(env, s, step))
  {
    var t := Next(env, s, step);
    var e := s.pendingClasses[0];
    assert t.ctl.classes == Apply(s.ctl.classes, e);
    assert s.pendingClasses == [e] + t.pendingClasses;
    forall n ensures Scheduled(t, n) || Fresh(env, t, n) {
      assert Scheduled(s, n) || Fresh(env, s, n);
    }
  }

  lemma ScanClassKeeps(env: Env, s: Sys, step: Step)
    requires Inv(env, s) && Enabled(env, s, step) && step.ScanClass?
    ensures Inv(env, Next(env, s, step))
  {
    var t := Next(env, s, step);
    forall n ensures Scheduled(t, n) || Fresh(env, t, n) {
      assert Scheduled(s, n) || Fresh(env, s, n);
      if AwaitsClass(s, n) && !AwaitsClass(t, n) && n !in s.pendingIngresses {
        assert Lookup(step.cache.ingresses, n) == Lookup(s.cluster.ingresses, n);
        assert n in t.queue;
      }
    }
  }

  lemma ConfigKeeps(env: Env, s: Sys, step: Step)
    requires Inv(env, s) && Enabled(env, s, step) && Tame(env, s, step) && (step.SetConfig? || step.SetCommon?)
    ensures Inv(env, Next(env, s, step))
  {
    var t := Next(env, s, step);
    forall n ensures Scheduled(t, n) || Fresh(env, t, n) {
      assert Scheduled(s, n) || Fresh(env, s, n);
    }
  }

  lemma BeginKeeps(env: Env, s: Sys, step: Step)
    requires Inv(env, s) && Enabled(env, s, step) && step.Begin?
    ensures Inv(env, Next(env, s, step))
  {
    var t := Next(env, s, step);
    forall n ensures Scheduled(t, n) || Fresh(env, t, n) {
      assert Scheduled(s, n) || Fresh(env, s, n);
    }
    assert step.n !in s.pendingIngresses ==> Lookup(step.cache.ingresses, step.n) == Lookup(s.cluster.ingresses, step.n);
  }

  lemma FinishKeeps(env: Env, s: Sys, step: Step)
    requires Inv(env, s) && Enabled(env, s, step) && step.Finish?
    ensures Inv(env, Next(env, s, step))
  {
    var t := Next(env, s, step);
    FinishConsistent(env, s, step.n, step.views);
    forall n ensures Scheduled(t, n) || Fresh(env, t, n) {
      assert Scheduled(s, n) || Fresh(env, s, n);
      if n == step.n {
        FinishSettles(env, s, n, step.views);
      } else {
        FinishOthers(env, s, step.n, step.views, n);
      }
    }
  }

  lemma FinishConsistent(env: Env, s: Sys, n: Name, views: Views)
    requires Consistent(s) && n in s.inflight && SeesAll(s, views)
    ensures Consistent(Next(env, s, Finish(n, views)))
  {
  }

  /** A finished reconcile does not touch any other ingress. */
  lemma FinishOthers(env: Env, s: Sys, n: Name, views: Views, m: Name)
    requires Consistent(s) && n in s.inflight && SeesAll(s, views) && m != n
    ensures var t := Next(env, s, Finish(n, views));
            && (Scheduled(s, m) <==> Scheduled(t, m))
            && (Fresh(env, s, m) <==> Fresh(env, t, m))
  {
    FinishFrame(env, s, n, views, m);
    SameElsewhere(env, s, Next(env, s, Finish(n, views)), m);
  }

  /** s and t do not differ in anything that concerns m. */
  ghost predicate AlikeFor(s: Sys, t: Sys, m: Name) {
    && t.cluster == s.cluster && t.ctl.config == s.ctl.config && Lookup(t.ctl.entries, m) == Lookup(s.ctl.entries, m)
    && t.pendingIngresses == s.pendingIngresses && t.pendingServices == s.pendingServices
    && t.pendingSecrets == s.pendingSecrets && t.pendingClasses == s.pendingClasses && t.classScan == s.classScan
    && (m in t.queue <==> m in s.queue) && (m in t.inflight <==> m in s.inflight)
  }

  lemma FinishFrame(env: Env, s: Sys, n: Name, views: Views, m: Name)
    requires Consistent(s) && n in s.inflight && SeesAll(s, views) && m != n
    ensures AlikeFor(s, Next(env, s, Finish(n, views)), m)
  {
  }

  lemma SameElsewhere(env: Env, s: Sys, t: Sys, m: Name)
    requires AlikeFor(s, t, m)
    ensures Scheduled(s, m) <==> Scheduled(t, m)
    ensures Fresh(env, s, m) <==> Fresh(env, t, m)
  {
    assert m in s.ctl.entries <==> m in t.ctl.entries;
    assert m in s.ctl.entries ==> Some(s.ctl.entries[m]) == Some(t.ctl.entries[m]);
  }

  /** A finished reconcile leaves its ingress fresh, or a reason to look again. */
  lemma FinishSettles(env: Env, s: Sys, n: Name, views: Views)
    requires Inv(env, s) && n in s.inflight && SeesAll(s, views)
    ensures var t := Next(env, s, Finish(n, views)); Scheduled(t, n) || Fresh(env, t, n)
  {
    var t := Next(env, s, Finish(n, views));
    if !Scheduled(t, n) && s.inflight[n].Some? {
      var ing := s.inflight[n].value;
      RelevanceSettled(env, s, ing);
      if Relevant(env.controller, s.ctl.classes, ing) {
        SeenSettled(env, s, t, n, views, ing);
      }
    }
  }

  /** What a reconcile compiled from settled reads is what the cluster compiles to. */
  lemma SeenSettled(env: Env, s: Sys, t: Sys, n: Name, views: Views, ing: Ingress)
    requires SeesAll(s, views) && s.ctl.config.Some? && CompileSeen(env.libs, s.ctl.config.value, views, ing).Ok?
    requires t.pendingServices == s.pendingServices && t.pendingSecrets == s.pendingSecrets && t.cluster == s.cluster
    requires Lookup(t.ctl.entries, n) == Some(Entry(ing, Some(CompileSeen(env.libs, s.ctl.config.value, views, ing).value)))
    requires !AwaitsRead(t, n)
    ensures Compile(env.libs, s.ctl.config.value, t.cluster, ing) == CompileSeen(env.libs, s.ctl.config.value, views, ing)
  {
    var used := CompileSeen(env.libs, s.ctl.config.value, views, ing).value;
    assert n in t.ctl.entries && t.ctl.entries[n].conf == Some(used);
    forall k ensures AgreeOn(views(k), t.cluster, used) {
      assert Sees(s, views(k));
    }
    SeenDependsOnReads(env.libs, s.ctl.config.value, views, t.cluster, ing);
  }

  lemma StepKeeps(env: Env, s: Sys, step: Step)
    requires Inv(env, s) && Enabled(env, s, step) && Tame(env, s, step)
    ensures Inv(env, Next(env, s, step))
  {
    match step
    case PutIngress(_) => IngressChangeKeeps(env, s, step);
    case DropIngress(_) => IngressChangeKeeps(env, s, step);
    case SetService(_, _) => ObjectChangeKeeps(env, s, step);
    case SetSecret(_, _) => ObjectChangeKeeps(env, s, step);
    case CreateClass(_, _) => ClassChangeKeeps(env, s, step);
    case DeleteClass(_) => ClassChangeKeeps(env, s, step);
    case DeliverIngress(_) => DeliveryKeeps(env, s, step);
    case DeliverService(_) => DeliveryKeeps(env, s, step);
    case DeliverSecret(_) => DeliveryKeeps(env, s, step);
    case DeliverClass => DeliverClassKeeps(env, s, step);
    case ScanClass(_) => ScanClassKeeps(env, s, step);
    case SetConfig(_) => ConfigKeeps(env, s, step);
    case SetCommon(_, _) => ConfigKeeps(env, s, step);
    case Begin(_, _) => BeginKeeps(env, s, step);
    case Finish(_, _) => FinishKeeps(env, s, step);
  }

  /** Queue-or-fresh: over every tame interleaving, in every state, every ingress name is scheduled for another
      look or its entry equals the build from scratch. */
  lemma {:induction false} QueueOrFresh(env: Env, states: seq<Sys>, steps: seq<Step>, i: nat)
    requires TameRun(env, states, steps) && i < |states|
    ensures Inv(env, states[i])
    decreases i
  {
    if i > 0 {
      QueueOrFresh(env, states, steps, i - 1);
      StepKeeps(env, states[i - 1], steps[i - 1]);
    }
  }

  ghost predicate Drained(s: Sys) {
    && s.queue == {} && s.inflight == map[] && s.classScan.None?
    && s.pendingIngresses == {} && s.pendingServices == {} && s.pendingSecrets == {} && s.pendingClasses == []
  }

  /** The whole cache a build from scratch gives. */
  ghost predicate IsRebuild(env: Env, config: Option<ControllerConf>, c: Cluster, entries: map<Name, Entry>) {
    forall n :: Rebuilt(env, config, c, n) == Ok(Lookup(entries, n))
  }

  /** Once everything is delivered and the queue is drained, the whole cache is the simple rebuild. */
  lemma DrainedIsRebuild(env: Env, states: seq<Sys>, steps: seq<Step>, i: nat)
    requires TameRun(env, states, steps) && i < |states| && Drained(states[i])
    ensures IsRebuild(env, states[i].ctl.config, states[i].cluster, states[i].ctl.entries)
    ensures states[i].ctl.classes == states[i].cluster.classes
  {
    QueueOrFresh(env, states, steps, i);
    var s := states[i];
    forall n ensures Rebuilt(env, s.ctl.config, s.cluster, n) == Ok(Lookup(s.ctl.entries, n)) {
      assert Scheduled(s, n) || Fresh(env, s, n);
    }
  }

  // Startup, on every run

  /** No reconcile is ever in flight, and nothing is ever stored, before the configuration is set; so the missing
      configuration is never read. */
  lemma {:induction false} NoReconcileBeforeConfig(env: Env, states: seq<Sys>, steps: seq<Step>, i: nat)
    requires IsRun(env, states, steps) && i < |states|
    ensures Untouched(states[i])
    ensures i < |steps| && steps[i].Finish? ==> states[i].ctl.config.Some?
    decreases i
  {
    if i > 0 {
      NoReconcileBeforeConfig(env, states, steps, i - 1);
      StepKeepsUnconfigured(env, states[i - 1], steps[i - 1]);
    }
    assert i < |steps| ==> Enabled(env, states[i], steps[i]);
  }

  ghost predicate Untouched(s: Sys) {
    s.ctl.config.None? ==> s.inflight == map[] && s.ctl.entries == map[]
  }

  lemma StepKeepsUnconfigured(env: Env, s: Sys, step: Step)
    requires Untouched(s) && Enabled(env, s, step)
    ensures Untouched(Next(env, s, step))
  {
  }
}
