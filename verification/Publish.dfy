/** Publishing: the one-slot reconfigure token, the Run loop, the bounded
    channel to the proxy and the installed configuration. */
module Publish {
  import opened Prelude
  import opened Kube
  import opened Converter
  import opened State
  import opened Aggregate
  import opened Common

  const CHANNEL_CAPACITY := 5

  /** The parts of the state that a common reconcile writes. */
  datatype CommonPart = CommonPart(config: Option<ControllerConf>, defaultTls: Option<Certificate>, tcp: seq<TcpProxy>)

  /** Where Run is. Common holds the stage reached and the common part found when it began; the first common
      reconcile is Init. Took: token taken, state not yet read. */
  datatype RunPc =
    | NotStarted
    | Idle
    | Took
    | Sending(conf: Option<ProxyConf>)
    | Common(stage: nat, init: bool, found: CommonPart)
    | Exited

  /** computed and installed are the histories of configurations built by Run and stored by the proxy. */
  datatype Pub = Pub(
    token: bool,
    commonToken: bool,
    pc: RunPc,
    computed: seq<Option<ProxyConf>>,
    channel: seq<Option<ProxyConf>>,
    installed: seq<Option<ProxyConf>>)

  datatype CtlOp =
    | Removal(n: Name)
    | Irrelevance(ing: Ingress)
    | Update(ing: Ingress, conf: IngressConf)
    | AddClass(class_: string, controller: string)
    | RemoveClass(class_: string)

  /** The locked operations of the controller, as recorded in State. */
  function Perform(controller: string, ctl: Ctl, op: CtlOp): Change {
    match op
    case Removal(n) => RemoveIngress(controller, ctl, n)
    case Irrelevance(ing) => MarkIrrelevant(controller, ctl, ing)
    case Update(ing, conf) => UpdateIngress(ctl, ing, conf)
    case AddClass(c, k) => AddIngressClass(ctl, c, k)
    case RemoveClass(c) => RemoveIngressClass(ctl, c)
  }

  /** The stages of a common reconcile read the cluster; loading the configuration is an input. */
  datatype Step =
    | Op(op: CtlOp)
    | StartInit
    | TakeCommon
    | AskCommon
    | UpdateConfig(conf: ControllerConf)
    | UpdateTls(cache: Cluster)
    | UpdateStatus
    | UpdateTcp(views: Views)
    | FinishCommon
    | FailCommon(views: Views)
    | TakeToken
    | Compute(order: seq<Name>)
    | Send
    | Receive

  datatype Sys = Sys(ctl: Ctl, pub: Pub)

  function CommonOf(ctl: Ctl): CommonPart {
    CommonPart(ctl.config, ctl.defaultTls, ctl.tcp)
  }

  predicate AtStage(p: Pub, stage: nat) {
    p.pc.Common? && p.pc.stage == stage
  }

  function TlsRead(env: Env, ctl: Ctl, c: Cluster): Result<Option<Certificate>> {
    if ctl.config.None? then Err else DefaultTls(env, ctl.config.value, c)
  }

  function TcpRead(env: Env, ctl: Ctl, v: Views): Result<seq<TcpProxy>> {
    if ctl.config.None? then Err else TcpProxies(env.libs, v, ctl.config.value.tcpProxy, [])
  }

  /** The stage reached fails on these reads. The upstream status stage cannot fail. */
  predicate Fails(env: Env, s: Sys, v: Views) {
    || AtStage(s.pub, 0)
    || (AtStage(s.pub, 1) && TlsRead(env, s.ctl, v(0)).Err?)
    || (AtStage(s.pub, 3) && TcpRead(env, s.ctl, v).Err?)
  }

  ghost predicate Enabled(env: Env, s: Sys, step: Step) {
    match step
    case Op(op) => (op.Irrelevance? ==> !Relevant(env.controller, s.ctl.classes, op.ing))
                && (op.Update? ==> Relevant(env.controller, s.ctl.classes, op.ing))
    case StartInit => s.pub.pc.NotStarted?
    case TakeCommon => s.pub.pc.Idle? && s.pub.commonToken
    case AskCommon => true
    case UpdateConfig(_) => AtStage(s.pub, 0)
    case UpdateTls(cache) => AtStage(s.pub, 1) && TlsRead(env, s.ctl, cache).Ok?
    case UpdateStatus => AtStage(s.pub, 2)
    case UpdateTcp(views) => AtStage(s.pub, 3) && TcpRead(env, s.ctl, views).Ok?
    case FinishCommon => AtStage(s.pub, 4)
    case FailCommon(views) => Fails(env, s, views)
    case TakeToken => s.pub.pc.Idle? && s.pub.token
    case Compute(order) => s.pub.pc.Took? && IsOrder(s.ctl.entries, order)
    case Send => s.pub.pc.Sending? && |s.pub.channel| < CHANNEL_CAPACITY
    case Receive => s.pub.channel != []
  }

  function NextStage(pc: RunPc): RunPc
    requires pc.Common?
  {
    pc.(stage := pc.stage + 1)
  }

  /** getProxyConfig; reading a missing configuration panics in the source, here it yields no configuration. */
  function Computed(ctl: Ctl, order: seq<Name>): Option<ProxyConf> {
    if ctl.config.None? then None else Assemble(ctl, order)
  }

  function Next(env: Env, s: Sys, step: Step): Sys
    requires Enabled(env, s, step)
  {
    var p := s.pub;
    match step
    case Op(op) =>
      var change := Perform(env.controller, s.ctl, op);
      Sys(change.ctl, p.(token := p.token || change.request))
    case StartInit => s.(pub := p.(pc := Common(0, true, CommonOf(s.ctl))))
    case TakeCommon => s.(pub := p.(pc := Common(0, false, CommonOf(s.ctl)), commonToken := false))
    case AskCommon => s.(pub := p.(commonToken := true))
    case UpdateConfig(conf) => Sys(s.ctl.(config := Some(conf)), p.(pc := NextStage(p.pc)))
    case UpdateTls(cache) => Sys(s.ctl.(defaultTls := TlsRead(env, s.ctl, cache).value), p.(pc := NextStage(p.pc)))
    case UpdateStatus => s.(pub := p.(pc := NextStage(p.pc)))
    case UpdateTcp(views) => Sys(s.ctl.(tcp := TcpRead(env, s.ctl, views).value), p.(pc := NextStage(p.pc)))
    case FinishCommon => s.(pub := p.(pc := Idle, token := true))
    case FailCommon(_) => s.(pub := p.(pc := if p.pc.init then Exited else Idle))
    case TakeToken => s.(pub := p.(pc := Took, token := false))
    case Compute(order) =>
      var conf := Computed(s.ctl, order);
      s.(pub := p.(pc := Sending(conf), computed := p.computed + [conf]))
    case Send => s.(pub := p.(pc := Idle, channel := p.channel + [p.pc.conf]))
    case Receive => s.(pub := p.(channel := p.channel[1..], installed := p.installed + [p.channel[0]]))
  }

  ghost predicate Initial(s: Sys) {
    s.ctl == INITIAL && !s.pub.token && !s.pub.commonToken && s.pub.pc.NotStarted?
    && s.pub.computed == [] && s.pub.channel == [] && s.pub.installed == []
  }

  ghost predicate IsRun(env: Env, states: seq<Sys>, steps: seq<Step>) {
    && |states| == |steps| + 1
    && Initial(states[0])
    && forall i :: 0 <= i < |steps| ==>
         Enabled(env, states[i], steps[i]) && states[i + 1] == Next(env, states[i], steps[i])
  }

  // The stages are the common reconcile

  /** From the start of a common reconcile, the stages taken on these reads end where Reconfigure says. */
  lemma StagesAreReconfigure(env: Env, s: Sys, conf: ControllerConf, tls: Cluster, tcp: Views) returns (t: Sys)
    requires AtStage(s.pub, 0)
    ensures t.ctl == Reconfigure(env, s.ctl, CommonReads(Some(conf), tls, tcp)).0
    ensures Reconfigure(env, s.ctl, CommonReads(Some(conf), tls, tcp)).1 ==> t.pub == s.pub.(pc := Idle, token := true)
    ensures !Reconfigure(env, s.ctl, CommonReads(Some(conf), tls, tcp)).1 ==>
              t.pub == s.pub.(pc := if s.pub.pc.init then Exited else Idle)
  {
    t := Next(env, s, UpdateConfig(conf));
    if DefaultTls(env, conf, tls).Err? {
      assert Still(tls)(0) == tls;
      t := Next(env, t, FailCommon(Still(tls)));
    } else {
      t := Next(env, t, UpdateTls(tls));
      t := Next(env, t, UpdateStatus);
      if TcpProxies(env.libs, tcp, conf.tcpProxy, []).Err? {
        t := Next(env, t, FailCommon(tcp));
      } else {
        t := Next(env, t, UpdateTcp(tcp));
        t := Next(env, t, FinishCommon);
      }
    }
  }

  // Startup and channel order, on every run

  /** The state is read only with a configuration present. */
  ghost predicate Loaded(s: Sys) {
    && (s.ctl.config.None? ==>
          && (s.pub.pc.NotStarted? || s.pub.pc.Exited? || (s.pub.pc.Common? && s.pub.pc.init && s.pub.pc.stage == 0))
          && s.pub.computed == [])
    && (s.pub.pc.Common? ==> s.pub.pc.stage <= 4 && (!s.pub.pc.init ==> s.pub.pc.found.config.Some?))
  }

  function InHand(pc: RunPc): seq<Option<ProxyConf>> {
    if pc.Sending? then [pc.conf] else []
  }

  /** The proxy has, is about to get, and Run holds exactly what was computed, in order. */
  ghost predicate Fifo(p: Pub) {
    |p.channel| <= CHANNEL_CAPACITY && p.computed == (p.installed + p.channel) + InHand(p.pc)
  }

  ghost predicate NoNil(p: Pub) {
    forall c :: c in p.computed ==> c.Some?
  }

  ghost predicate Orderly(s: Sys) {
    Loaded(s) && Fifo(s.pub) && NoNil(s.pub)
  }

  lemma LoadedKept(env: Env, s: Sys, step: Step)
    requires Loaded(s) && Enabled(env, s, step)
    ensures Loaded(Next(env, s, step))
    ensures s.ctl.config.Some? ==> Next(env, s, step).ctl.config.Some?
  {
  }

  lemma FifoKept(env: Env, s: Sys, step: Step)
    requires Fifo(s.pub) && Enabled(env, s, step)
    ensures Fifo(Next(env, s, step).pub)
  {
    var p := s.pub;
    match step
    case Compute(order) =>
      NothingAfter(p.installed + p.channel);
    case Send =>
      Associative(p.installed, p.channel, [p.pc.conf]);
      NothingAfter(p.installed + (p.channel + [p.pc.conf]));
    case Receive =>
      HeadMoves(p.installed, p.channel);
    case _ =>
  }

  lemma NothingAfter<T>(s: seq<T>)
    ensures s + [] == s
  {
  }

  lemma HeadMoves<T>(a: seq<T>, b: seq<T>)
    requires b != []
    ensures a + b == (a + [b[0]]) + b[1..]
  {
  }

  lemma NoNilKept(env: Env, s: Sys, step: Step)
    requires Loaded(s) && NoNil(s.pub) && Enabled(env, s, step)
    ensures NoNil(Next(env, s, step).pub)
  {
    if step.Compute? {
      ConnectionModulesSucceed(s.ctl.config.value.modules, []);
    }
  }

  lemma OrderlyKept(env: Env, s: Sys, step: Step)
    requires Orderly(s) && Enabled(env, s, step)
    ensures Orderly(Next(env, s, step))
    ensures s.ctl.config.Some? ==> Next(env, s, step).ctl.config.Some?
  {
    LoadedKept(env, s, step);
    FifoKept(env, s, step);
    NoNilKept(env, s, step);
  }

  /** Startup safety over every run: the state is never aggregated without a configuration, a configuration once
      set stays set, no nil configuration is computed or installed, and the proxy installs a prefix of what Run
      computed, in the same order. */
  lemma {:induction false} StartupSafety(env: Env, states: seq<Sys>, steps: seq<Step>, i: nat)
    requires IsRun(env, states, steps) && i < |states|
    ensures Orderly(states[i])
    ensures states[i].pub.pc.Took? ==> states[i].ctl.config.Some?
    ensures states[i].pub.installed <= states[i].pub.computed
    ensures forall c :: c in states[i].pub.installed ==> c.Some?
    ensures forall j :: 0 <= j < i && states[j].ctl.config.Some? ==> states[i].ctl.config.Some?
    decreases i
  {
    if i > 0 {
      StartupSafety(env, states, steps, i - 1);
      OrderlyKept(env, states[i - 1], steps[i - 1]);
    }
    InstalledPrefix(states[i].pub);
  }

  lemma InstalledPrefix(p: Pub)
    requires Fifo(p) && NoNil(p)
    ensures p.installed <= p.computed
    ensures forall c :: c in p.installed ==> c.Some?
  {
    Associative(p.installed, p.channel, InHand(p.pc));
    forall c | c in p.installed ensures c.Some? {
      assert c in p.computed;
    }
  }

  // No lost publish

  /** What getProxyConfig takes from the common part; None when there is no configuration to read. */
  datatype Shown = Shown(
    middlewares: Result<seq<Middleware>>,
    trustedProxies: seq<string>,
    errorPage: Option<string>,
    defaultTls: Option<Certificate>,
    tcp: seq<TcpProxy>)

  function Shows(c: CommonPart): Option<Shown> {
    if c.config.None? then None
    else
      var conf := c.config.value;
      Some(Shown(ConnectionModules(conf.modules, []), conf.trustedProxies, conf.errorPage, c.defaultTls, c.tcp))
  }

  /** The state with the common part that a running common reconcile found. */
  ghost function Base(s: Sys): Ctl {
    if s.pub.pc.Common? then
      s.ctl.(config := s.pub.pc.found.config, defaultTls := s.pub.pc.found.defaultTls, tcp := s.pub.pc.found.tcp)
    else s.ctl
  }

  ghost function Last(p: Pub): Option<ProxyConf>
    requires p.computed != []
  {
    p.computed[|p.computed| - 1]
  }

  ghost predicate Current(s: Sys) {
    s.pub.computed != [] && IsAggregate(Last(s.pub), Base(s))
  }

  /** Run has not begun to publish, has given up, or will read the state anyway. */
  predicate Underway(pc: RunPc) {
    pc.NotStarted? || pc.Exited? || pc.Took? || (pc.Common? && pc.init)
  }

  /** A publish is under way, requested, or unnecessary. */
  ghost predicate NoneLost(s: Sys) {
    Underway(s.pub.pc) || s.pub.token || Current(s)
  }

  /** The entry an operation takes out of what is published, if any. */
  function Dropped(op: CtlOp): Option<Name> {
    match op
    case Removal(n) => Some(n)
    case Irrelevance(ing) => Some(ing.id)
    case _ => None
  }

  ghost predicate HoldsNothing(conf: IngressConf) {
    conf.certs == map[] && forall h :: h in conf.hosts ==> conf.hosts[h] == []
  }

  /** The operation drops routes or certificates, requests no publish because the entry is not relevant under the
      current classes, and none is requested or under way. */
  ghost predicate DropsUnseen(env: Env, s: Sys, op: CtlOp) {
    && !s.pub.token && !Underway(s.pub.pc)
    && Dropped(op).Some?
    && var n := Dropped(op).value;
       && Configured(s.ctl.entries, n) && !HoldsNothing(ConfOf(s.ctl.entries, n))
       && !Relevant(env.controller, s.ctl.classes, s.ctl.entries[n].ingress)
  }

  /** Every step but two: a drop that nobody will publish, and a common reconcile that fails after changing what
      getProxyConfig reads, when no publish is requested or under way. */
  ghost predicate Tame(env: Env, s: Sys, step: Step) {
    match step
    case Op(op) => !DropsUnseen(env, s, op)
    case FailCommon(_) =>
      s.pub.token || (s.pub.pc.Common? && (s.pub.pc.init || Shows(CommonOf(s.ctl)) == Shows(s.pub.pc.found)))
    case _ => true
  }

  ghost predicate TameRun(env: Env, states: seq<Sys>, steps: seq<Step>) {
    IsRun(env, states, steps) && forall i :: 0 <= i < |steps| ==> Tame(env, states[i], steps[i])
  }

  // Dropping an entry from an aggregate

  function Without(order: seq<Name>, n: Name): seq<Name> {
    if order == [] then []
    else Without(order[..|order| - 1], n) + (if order[|order| - 1] == n then [] else [order[|order| - 1]])
  }

  lemma {:induction false} WithoutMembers(order: seq<Name>, n: Name)
    ensures forall m :: m in Without(order, n) <==> m in order && m != n
    ensures (forall i, j :: 0 <= i < j < |order| ==> order[i] != order[j]) ==>
              forall i, j :: 0 <= i < j < |Without(order, n)| ==> Without(order, n)[i] != Without(order, n)[j]
  {
    if order != [] {
      var init, last := order[..|order| - 1], order[|order| - 1];
      WithoutMembers(init, n);
      assert forall m :: m in order <==> m in init || m == last;
      if forall i, j :: 0 <= i < j < |order| ==> order[i] != order[j] {
        assert last !in init;
      }
    }
  }

  /** b has the entries of a except n, which it does not have configured. */
  ghost predicate Drops(a: map<Name, Entry>, b: map<Name, Entry>, n: Name) {
    && !Configured(b, n)
    && forall m :: m != n ==> (Configured(a, m) <==> Configured(b, m)) && ConfOf(a, m) == ConfOf(b, m)
  }

  lemma MergeOfNothing(a: map<string, seq<Route>>, conf: IngressConf)
    requires HoldsNothing(conf)
    ensures MergeHosts(a, conf.hosts) == a
    ensures forall certs :: MergeCerts(certs, conf.certs) == certs
  {
    assert forall h :: h in a ==> Routing.InsertAll(a[h], []) == a[h];
  }

  lemma {:induction false} MergedWithout(a: map<Name, Entry>, b: map<Name, Entry>, order: seq<Name>, n: Name)
    requires Drops(a, b, n) && HoldsNothing(ConfOf(a, n))
    ensures MergedHosts(b, Without(order, n)) == MergedHosts(a, order)
    ensures MergedCerts(b, Without(order, n)) == MergedCerts(a, order)
    decreases |order|
  {
    if order != [] {
      var init, last := order[..|order| - 1], order[|order| - 1];
      MergedWithout(a, b, init, n);
      if last == n {
        MergeOfNothing(MergedHosts(a, init), ConfOf(a, n));
        NothingAfter(Without(init, n));
      } else {
        MergedOneMore(b, Without(init, n), last);
      }
    }
  }

  /** Dropping an entry that is not configured, or holds nothing, leaves every aggregate one. */
  lemma DropKeepsAggregate(conf: Option<ProxyConf>, a: Ctl, b: Ctl, n: Name)
    requires Drops(a.entries, b.entries, n) && Shows(CommonOf(a)) == Shows(CommonOf(b))
    requires HoldsNothing(ConfOf(a.entries, n)) && IsAggregate(conf, a)
    ensures IsAggregate(conf, b)
  {
    var order :| IsOrder(a.entries, order) && conf == Assemble(a, order);
    WithoutMembers(order, n);
    MergedWithout(a.entries, b.entries, order, n);
    assert IsOrder(b.entries, Without(order, n));
  }

  lemma ShowsSame(conf: Option<ProxyConf>, a: Ctl, b: Ctl)
    requires a.entries == b.entries && Shows(CommonOf(a)) == Shows(CommonOf(b)) && IsAggregate(conf, a)
    ensures IsAggregate(conf, b)
  {
    var order :| IsOrder(a.entries, order) && conf == Assemble(a, order);
    assert IsOrder(b.entries, order) && conf == Assemble(b, order);
  }

  lemma PerformDrops(env: Env, ctl: Ctl, op: CtlOp)
    requires Dropped(op).Some?
    ensures Drops(ctl.entries, Perform(env.controller, ctl, op).ctl.entries, Dropped(op).value)
    ensures Perform(env.controller, ctl, op).ctl == ctl.(entries := Perform(env.controller, ctl, op).ctl.entries)
    ensures var n := Dropped(op).value;
            Configured(ctl.entries, n) ==>
              (Perform(env.controller, ctl, op).request <==> Relevant(env.controller, ctl.classes, ctl.entries[n].ingress))
  {
  }

  // Every tame step keeps it

  lemma OpKeepsPublished(env: Env, s: Sys, op: CtlOp)
    requires NoneLost(s) && Enabled(env, s, Op(op)) && !DropsUnseen(env, s, op)
    ensures NoneLost(Next(env, s, Op(op)))
  {
    var t := Next(env, s, Op(op));
    if Current(s) && !t.pub.token && !Underway(s.pub.pc) {
      if Dropped(op).Some? {
        PerformDrops(env, s.ctl, op);
        DropKeepsAggregate(Last(s.pub), Base(s), Base(t), Dropped(op).value);
      } else {
        ShowsSame(Last(s.pub), Base(s), Base(t));
      }
    }
  }

  lemma ComputeKeepsPublished(env: Env, s: Sys, order: seq<Name>)
    requires Loaded(s) && Enabled(env, s, Compute(order))
    ensures NoneLost(Next(env, s, Compute(order)))
  {
    assert IsAggregate(Computed(s.ctl, order), s.ctl);
  }

  lemma FailKeepsPublished(env: Env, s: Sys, v: Views)
    requires NoneLost(s) && Enabled(env, s, FailCommon(v)) && Tame(env, s, FailCommon(v))
    ensures NoneLost(Next(env, s, FailCommon(v)))
  {
    if !s.pub.token && !s.pub.pc.init {
      assert CommonOf(Base(s)) == s.pub.pc.found;
      ShowsSame(Last(s.pub), Base(s), s.ctl);
    }
  }

  /** The other steps of Run and the proxy request a publish, take the token, or leave alone what was computed. */
  lemma RunKeepsPublished(env: Env, s: Sys, step: Step)
    requires NoneLost(s) && Enabled(env, s, step)
    requires !step.Op? && !step.Compute? && !step.FailCommon?
    ensures NoneLost(Next(env, s, step))
  {
    var t := Next(env, s, step);
    if step.StartInit? || step.TakeToken? || step.FinishCommon? {
      assert NoneLost(t);
    } else {
      assert t.pub.computed == s.pub.computed && (s.pub.token ==> t.pub.token) && Underway(t.pub.pc) == Underway(s.pub.pc);
      assert !Underway(s.pub.pc) ==> Base(t) == Base(s);
    }
  }

  lemma StepKeepsPublished(env: Env, s: Sys, step: Step)
    requires Loaded(s) && NoneLost(s) && Enabled(env, s, step) && Tame(env, s, step)
    ensures NoneLost(Next(env, s, step))
  {
    match step
    case Op(op) => OpKeepsPublished(env, s, op);
    case Compute(order) => ComputeKeepsPublished(env, s, order);
    case FailCommon(v) => FailKeepsPublished(env, s, v);
    case _ => RunKeepsPublished(env, s, step);
  }

  /** No lost publish: in every state of every tame run a publish is requested, in progress, or the last computed
      configuration is an aggregate of the current state. */
  lemma {:induction false} NoLostPublish(env: Env, states: seq<Sys>, steps: seq<Step>, i: nat)
    requires TameRun(env, states, steps) && i < |states|
    ensures Orderly(states[i]) && NoneLost(states[i])
    decreases i
  {
    StartupSafety(env, states, steps, i);
    if i > 0 {
      NoLostPublish(env, states, steps, i - 1);
      StepKeepsPublished(env, states[i - 1], steps[i - 1]);
    }
  }

  /** Nothing requested, in progress or in the channel. */
  ghost predicate Quiet(s: Sys) {
    !s.pub.token && !s.pub.commonToken && s.pub.pc.Idle? && s.pub.channel == []
  }

  /** Convergence: when nothing is requested, in progress or in the channel, the installed configuration is an
      aggregate of the current state. */
  lemma Converged(env: Env, states: seq<Sys>, steps: seq<Step>, i: nat)
    requires TameRun(env, states, steps) && i < |states| && Quiet(states[i])
    ensures var p := states[i].pub;
            p.installed != [] && IsAggregate(p.installed[|p.installed| - 1], states[i].ctl)
  {
    NoLostPublish(env, states, steps, i);
    QuietInstalled(states[i].pub);
  }

  lemma QuietInstalled(p: Pub)
    requires Fifo(p) && p.pc.Idle? && p.channel == []
    ensures p.computed == p.installed
  {
    NothingAfter(p.installed);
  }

  // Exactly when a drop loses a publish

  /** Every compiled route names the ingress it is stored under. */
  ghost predicate RoutesNamed(entries: map<Name, Entry>) {
    forall n :: Configured(entries, n) ==> NamedAfter(ConfOf(entries, n).hosts, n)
  }

  ghost predicate CertsUnshared(entries: map<Name, Entry>) {
    forall m, n, h :: h in ConfOf(entries, m).certs && h in ConfOf(entries, n).certs ==> m == n
  }

  /** A route of the aggregate is a route of a visited entry, and conversely. */
  lemma {:induction false} MergedRoute(entries: map<Name, Entry>, order: seq<Name>, h: string, r: Route)
    ensures r in HostRoutes(entries, order, h) <==> exists n :: n in order && r in RoutesOf(ConfOf(entries, n).hosts, h)
    decreases |order|
  {
    if order != [] {
      var init, last := order[..|order| - 1], order[|order| - 1];
      MergedRoute(entries, init, h, r);
      assert forall n :: n in order <==> n in init || n == last;
      InsertedMember(HostRoutes(entries, init, h), RoutesOf(ConfOf(entries, last).hosts, h), r);
    }
  }

  lemma InsertedMember(a: seq<Route>, b: seq<Route>, r: Route)
    ensures r in Routing.InsertAll(a, b) <==> r in a || r in b
  {
    Routing.InsertAllPermutes(a, b);
    assert r in Routing.InsertAll(a, b) <==> r in multiset(Routing.InsertAll(a, b));
    assert r in a <==> r in multiset(a);
    assert r in b <==> r in multiset(b);
  }

  lemma AggregateHasRoute(conf: Option<ProxyConf>, ctl: Ctl, h: string, r: Route)
    requires IsAggregate(conf, ctl)
    ensures conf.Some?
    ensures r in RoutesOf(conf.value.hosts, h) <==>
              exists n :: Configured(ctl.entries, n) && r in RoutesOf(ConfOf(ctl.entries, n).hosts, h)
  {
    AggregateIsNotNil(conf, ctl);
    var order :| IsOrder(ctl.entries, order) && conf == Assemble(ctl, order);
    MergedHost(ctl.entries, order, h);
    MergedRoute(ctl.entries, order, h, r);
  }

  lemma AggregateHasCert(conf: Option<ProxyConf>, ctl: Ctl, h: string)
    requires IsAggregate(conf, ctl)
    ensures conf.Some?
    ensures h in conf.value.certs <==> exists n :: Configured(ctl.entries, n) && h in ConfOf(ctl.entries, n).certs
  {
    AggregateIsNotNil(conf, ctl);
    var order :| IsOrder(ctl.entries, order) && conf == Assemble(ctl, order);
    MergedCert(ctl.entries, order, h);
  }

  /** Without n, which holds a route or a certificate of its own, no aggregate of a is one of b. */
  lemma DropShows(conf: Option<ProxyConf>, a: Ctl, b: Ctl, n: Name)
    requires Drops(a.entries, b.entries, n) && Configured(a.entries, n) && !HoldsNothing(ConfOf(a.entries, n))
    requires RoutesNamed(a.entries) && CertsUnshared(a.entries) && IsAggregate(conf, a)
    ensures !IsAggregate(conf, b)
  {
    var own := ConfOf(a.entries, n);
    if own.certs != map[] {
      var h :| h in own.certs;
      DropShowsCert(conf, a, b, n, h);
    } else {
      var h :| h in own.hosts && own.hosts[h] != [];
      DropShowsRoute(conf, a, b, n, h, own.hosts[h][0]);
    }
  }

  lemma DropShowsCert(conf: Option<ProxyConf>, a: Ctl, b: Ctl, n: Name, h: string)
    requires Drops(a.entries, b.entries, n) && Configured(a.entries, n) && h in ConfOf(a.entries, n).certs
    requires CertsUnshared(a.entries) && IsAggregate(conf, a)
    ensures !IsAggregate(conf, b)
  {
    AggregateHasCert(conf, a, h);
    forall m | Configured(b.entries, m) ensures h !in ConfOf(b.entries, m).certs {
      assert m != n && ConfOf(b.entries, m) == ConfOf(a.entries, m);
    }
    if IsAggregate(conf, b) {
      AggregateHasCert(conf, b, h);
    }
  }

  lemma DropShowsRoute(conf: Option<ProxyConf>, a: Ctl, b: Ctl, n: Name, h: string, r: Route)
    requires Drops(a.entries, b.entries, n) && Configured(a.entries, n) && r in RoutesOf(ConfOf(a.entries, n).hosts, h)
    requires RoutesNamed(a.entries) && IsAggregate(conf, a)
    ensures !IsAggregate(conf, b)
  {
    AggregateHasRoute(conf, a, h, r);
    forall m | Configured(b.entries, m) ensures r !in RoutesOf(ConfOf(b.entries, m).hosts, h) {
      assert m != n && ConfOf(b.entries, m) == ConfOf(a.entries, m) && Configured(a.entries, m);
    }
    if IsAggregate(conf, b) {
      AggregateHasRoute(conf, b, h, r);
    }
  }

  /** When the last computed configuration is current and no publish is requested or under way, dropping an entry
      loses none exactly when it requests one, the entry is not configured, or it holds no route and no certificate. */
  lemma DropLosesExactly(env: Env, s: Sys, op: CtlOp)
    requires Enabled(env, s, Op(op)) && Dropped(op).Some?
    requires Current(s) && !s.pub.token && !Underway(s.pub.pc)
    requires RoutesNamed(s.ctl.entries) && CertsUnshared(s.ctl.entries)
    ensures var n := Dropped(op).value;
            NoneLost(Next(env, s, Op(op))) <==>
            Perform(env.controller, s.ctl, op).request || !Configured(s.ctl.entries, n) || HoldsNothing(ConfOf(s.ctl.entries, n))
  {
    var n, t := Dropped(op).value, Next(env, s, Op(op));
    PerformDrops(env, s.ctl, op);
    if !Configured(s.ctl.entries, n) || HoldsNothing(ConfOf(s.ctl.entries, n)) {
      DropKeepsAggregate(Last(s.pub), Base(s), Base(t), n);
    } else {
      DropShows(Last(s.pub), Base(s), Base(t), n);
    }
  }

  ghost predicate NamesClass(ctl: Ctl, n: Name, c: string) {
    Configured(ctl.entries, n) && ctl.entries[n].ingress.className == Some(c) && ctl.entries[n].ingress.id == n
  }

  /** Remove the class, and publish. */
  ghost function AfterPublish(env: Env, s: Sys, order: seq<Name>, c: string): Sys
    requires s.pub.pc.Idle? && |s.pub.channel| < CHANNEL_CAPACITY && IsOrder(s.ctl.entries, order) && c in s.ctl.classes
  {
    var s1 := Next(env, s, Op(RemoveClass(c)));
    var s2 := Next(env, s1, TakeToken);
    var s3 := Next(env, s2, Compute(order));
    Next(env, s3, Send)
  }

  lemma PublishedState(env: Env, s: Sys, order: seq<Name>, c: string)
    requires s.pub.pc.Idle? && |s.pub.channel| < CHANNEL_CAPACITY && IsOrder(s.ctl.entries, order) && c in s.ctl.classes
    requires s.ctl.config.Some?
    ensures var t := AfterPublish(env, s, order, c);
            && t.ctl == s.ctl.(classes := s.ctl.classes - {c})
            && t.pub.pc.Idle? && !t.pub.token && Current(t)
  {
    var t := AfterPublish(env, s, order, c);
    assert Last(t.pub) == Computed(t.ctl, order);
    assert IsAggregate(Last(t.pub), t.ctl);
  }

  /** Removing the class of a configured ingress that holds a route or a certificate, among any number of others,
      publishing, and then reconciling that ingress loses a publish. */
  lemma ClassRemovalLosesPublish(env: Env, s: Sys, order: seq<Name>, n: Name, c: string)
    requires s.ctl.config.Some? && s.pub.pc.Idle? && |s.pub.channel| < CHANNEL_CAPACITY
    requires IsOrder(s.ctl.entries, order) && c in s.ctl.classes && NamesClass(s.ctl, n, c)
    requires RoutesNamed(s.ctl.entries) && CertsUnshared(s.ctl.entries) && !HoldsNothing(ConfOf(s.ctl.entries, n))
    ensures var t := AfterPublish(env, s, order, c);
            var op := Irrelevance(s.ctl.entries[n].ingress);
            && Enabled(env, t, Op(op)) && DropsUnseen(env, t, op) && !NoneLost(Next(env, t, Op(op)))
  {
    PublishedState(env, s, order, c);
    DropLosesExactly(env, AfterPublish(env, s, order, c), Irrelevance(s.ctl.entries[n].ingress));
  }

  // Exactly when a failed common reconcile loses a publish

  /** A common reconcile that fails after a completed publish loses nothing exactly when what it has stored so far
      shows the same to getProxyConfig as what it found. */
  lemma FailCommonExactly(env: Env, s: Sys, v: Views)
    requires Enabled(env, s, FailCommon(v)) && !s.pub.pc.init && !s.pub.token && Current(s)
    ensures NoneLost(Next(env, s, FailCommon(v))) <==> Shows(CommonOf(s.ctl)) == Shows(s.pub.pc.found)
  {
    var last, base := Last(s.pub), Base(s);
    AggregateIsNotNil(last, base);
    assert CommonOf(base) == s.pub.pc.found && base.entries == s.ctl.entries;
    if Shows(CommonOf(s.ctl)) == Shows(s.pub.pc.found) {
      ShowsSame(last, base, s.ctl);
    }
    if IsAggregate(last, s.ctl) {
      AggregateShows(last, base);
      AggregateShows(last, s.ctl);
    }
  }

  lemma AggregateShows(conf: Option<ProxyConf>, ctl: Ctl)
    requires IsAggregate(conf, ctl) && conf.Some?
    ensures Shows(CommonOf(ctl)) == Some(Shown(Ok(conf.value.requestMiddlewares), conf.value.trustedProxies,
                                               conf.value.errorPage, conf.value.defaultTls, conf.value.tcp))
  {
  }
}
