/** The system can always settle: from every state of a tame run, and in
    particular from the start, internal steps alone lead to quiescence. */
module Progress {
  import opened Prelude
  import opened Kube
  import opened Converter
  import opened State
  import opened EndToEnd
  import opened Aggregate
  import opened Common
  import R = Reconciler
  import P = Publish

  /** Steps of the controller and the proxy themselves, not changes of the cluster. */
  predicate Internal(step: Step) {
    match step
    case Watch(w) => w.DeliverIngress? || w.DeliverService? || w.DeliverSecret? || w.DeliverClass? || w.ScanClass?
                     || w.Begin? || w.Finish?
    case Publish(p) => !p.Op?
  }

  /** A sequence of tame internal steps. */
  ghost predicate Path(env: Env, states: seq<Whole>, steps: seq<Step>) {
    && |states| == |steps| + 1
    && forall i :: 0 <= i < |steps| ==>
         && Internal(steps[i]) && Enabled(env, states[i], steps[i]) && Tame(env, states[i], steps[i])
         && states[i + 1] == Next(env, states[i], steps[i])
  }

  // What settling needs

  predicate IsUpstreamOf(env: Env, conf: ControllerConf, n: Name) {
    conf.upstreamService == Some(n.name) && n.namespace == env.namespace
  }

  /** The TCP proxies are still to be read, or as the cluster gives them. */
  ghost predicate TcpFine(env: Env, s: Whole) {
    ConfigKnown(s) ==> ReadsAhead(s, 3) || TcpGiven(env, s)
  }

  /** Nothing undelivered is one of the service changes that requeue nothing. */
  ghost predicate HarmlessChanges(env: Env, conf: ControllerConf, s: Whole) {
    forall n :: n in s.watch.pendingServices ==>
      && (!IsUpstreamOf(env, conf, n) || R.ServiceUsers(s.watch.ctl, n) == {})
      && (BacksTcp(conf, n) ==> TcpFine(env, s))
  }

  /** Every relevant ingress of the cluster compiles. */
  ghost predicate Compiles(env: Env, conf: ControllerConf, c: Cluster) {
    forall n :: n in c.ingresses && Relevant(env.controller, c.classes, c.ingresses[n]) ==>
      Compile(env.libs, conf, c, c.ingresses[n]).Ok?
  }

  ghost predicate ConfiguredRelevant(env: Env, ctl: Ctl) {
    forall n :: Configured(ctl.entries, n) ==> Relevant(env.controller, ctl.classes, ctl.entries[n].ingress)
  }

  /** No configured entry has lost its class, unless a publish is requested or under way. */
  ghost predicate Guarded(env: Env, s: Whole) {
    s.pub.token || P.Underway(s.pub.pc) || ConfiguredRelevant(env, s.watch.ctl)
  }

  /** What settling needs besides the invariant. */
  ghost predicate CanGo(env: Env, conf: ControllerConf, s: Whole) {
    && !s.pub.pc.Exited?
    && (s.watch.ctl.config.Some? ==> s.watch.ctl.config == Some(conf))
    && HarmlessChanges(env, conf, s) && Guarded(env, s)
    && Compiles(env, conf, s.watch.cluster) && CommonLoads(env, conf, s.watch.cluster)
  }

  ghost predicate Ready(env: Env, conf: ControllerConf, s: Whole) {
    Inv(env, s) && CanGo(env, conf, s)
  }

  // What settling decreases

  datatype Rank = Rank(classes: nat, changes: nat, common: nat, work: nat, token: nat, run: nat, channel: nat)

  function CommonRank(p: P.Pub): nat {
    (if p.commonToken then 8 else 0)
    + (if p.pc.NotStarted? then 7 else if p.pc.Common? && p.pc.stage <= 4 then 6 - p.pc.stage else 0)
  }

  function RankOf(s: Whole): Rank {
    var w, p := s.watch, s.pub;
    Rank(2 * |w.pendingClasses| + (if w.classScan.Some? then 1 else 0),
         |w.pendingIngresses| + |w.pendingServices| + |w.pendingSecrets|,
         CommonRank(p),
         2 * |w.queue| + |w.inflight.Keys|,
         if p.token then 1 else 0,
         if p.pc.Took? then 2 else if p.pc.Sending? then 1 else 0,
         |p.channel|)
  }

  predicate Below(a: Rank, b: Rank) {
    || a.classes < b.classes
    || (a.classes == b.classes
        && (|| a.changes < b.changes
            || (a.changes == b.changes
                && (|| a.common < b.common
                    || (a.common == b.common
                        && (|| a.work < b.work
                            || (a.work == b.work && BelowRun(a, b))))))))
  }

  predicate BelowRun(a: Rank, b: Rank) {
    || a.token < b.token
    || (a.token == b.token && (a.run < b.run || (a.run == b.run && a.channel < b.channel)))
  }

  /** The internal steps other than a config-map event, a failed load, and a reconcile put off for want of a
      configuration. */
  ghost predicate Productive(conf: ControllerConf, s: Whole, step: Step) {
    && Internal(step)
    && match step
       case Watch(w) => w.Begin? ==> s.watch.ctl.config.Some?
       case Publish(p) => !p.AskCommon? && !p.FailCommon? && (p.UpdateConfig? ==> p.conf == conf)
  }

  /** step is an internal step that brings the system closer to quiescence. */
  ghost predicate Advances(env: Env, conf: ControllerConf, s: Whole, step: Step) {
    && Productive(conf, s, step) && Enabled(env, s, step) && Tame(env, s, step)
    && Ready(env, conf, Next(env, s, step)) && Below(RankOf(Next(env, s, step)), RankOf(s))
  }

  ghost predicate Delivered(w: R.Sys) {
    && w.pendingClasses == [] && w.classScan.None?
    && w.pendingIngresses == {} && w.pendingServices == {} && w.pendingSecrets == {}
  }

  lemma SeesItself(w: R.Sys)
    requires w.cluster.WellFormed()
    ensures R.Sees(w, w.cluster) && R.SeesAll(w, Still(w.cluster))
  {
    forall k ensures R.Sees(w, Still(w.cluster)(k)) {
      assert Still(w.cluster)(k) == w.cluster;
    }
  }

  // Steps of Run and the proxy

  lemma PublishFrame(env: Env, s: Whole, step: Step)
    requires Enabled(env, s, step) && step.Publish?
    ensures var t := Next(env, s, step);
            && t.watch == s.watch.(ctl := t.watch.ctl) && t.watch.ctl.entries == s.watch.ctl.entries
            && t.watch.ctl.classes == s.watch.ctl.classes
            && t.watch.ctl.config == (if step.p.UpdateConfig? then Some(step.p.conf) else s.watch.ctl.config)
            && (t.pub.pc.Exited? ==> s.pub.pc.Exited? || step.p.FailCommon?)
  {
  }

  /** Once everything is delivered, steps of Run keep the system ready. */
  lemma PublishReady(env: Env, conf: ControllerConf, s: Whole, step: Step)
    requires Ready(env, conf, s) && Enabled(env, s, step) && step.Publish? && !step.p.FailCommon?
    requires s.watch.pendingServices == {} && (step.p.UpdateConfig? ==> step.p.conf == conf)
    requires Guarded(env, Next(env, s, step))
    ensures Tame(env, s, step) && Internal(step) && Ready(env, conf, Next(env, s, step))
  {
    PublishKeeps(env, s, step);
    PublishFrame(env, s, step);
  }

  function StartStep(conf: ControllerConf, s: Whole): P.Step {
    match s.pub.pc
    case Common(stage, _, _) =>
      if stage == 0 then P.UpdateConfig(conf)
      else if stage == 1 then P.UpdateTls(s.watch.cluster)
      else if stage == 2 then P.UpdateStatus
      else if stage == 3 then P.UpdateTcp(Still(s.watch.cluster))
      else P.FinishCommon
    case _ => P.StartInit
  }

  lemma StartEnabled(env: Env, conf: ControllerConf, s: Whole)
    requires R.Consistent(s.watch) && P.Loaded(View(s)) && CanGo(env, conf, s) && (s.pub.pc.NotStarted? || s.pub.pc.Common?)
    ensures Enabled(env, s, Publish(StartStep(conf, s)))
  {
    SeesItself(s.watch);
  }

  lemma StartGuarded(env: Env, s: Whole, p: P.Step)
    requires Enabled(env, s, Publish(p)) && Guarded(env, s)
    requires p.StartInit? || p.UpdateConfig? || p.UpdateTls? || p.UpdateStatus? || p.UpdateTcp? || p.FinishCommon?
    ensures Guarded(env, Next(env, s, Publish(p)))
  {
  }

  /** Run finishes Init or a running common reconcile, which reads the cluster. */
  lemma StartAdvances(env: Env, conf: ControllerConf, s: Whole)
    requires Ready(env, conf, s) && Delivered(s.watch) && (s.pub.pc.NotStarted? || s.pub.pc.Common?)
    ensures Advances(env, conf, s, Publish(StartStep(conf, s)))
  {
    StartEnabled(env, conf, s);
    StartGuarded(env, s, StartStep(conf, s));
    PublishReady(env, conf, s, Publish(StartStep(conf, s)));
    StartRank(env, s, StartStep(conf, s));
  }

  lemma StartRank(env: Env, s: Whole, p: P.Step)
    requires Enabled(env, s, Publish(p)) && (s.pub.pc.NotStarted? || (s.pub.pc.Common? && s.pub.pc.stage <= 4))
    requires p.StartInit? || p.UpdateConfig? || p.UpdateTls? || p.UpdateStatus? || p.UpdateTcp? || p.FinishCommon?
    ensures Below(RankOf(Next(env, s, Publish(p))), RankOf(s))
  {
    PublishFrame(env, s, Publish(p));
  }

  function RunStep(s: Whole, order: seq<Name>): P.Step {
    if s.pub.pc.Took? then P.Compute(order)
    else if s.pub.pc.Sending? && |s.pub.channel| < P.CHANNEL_CAPACITY then P.Send
    else if s.pub.pc.Idle? && s.pub.commonToken then P.TakeCommon
    else if s.pub.pc.Idle? && s.pub.token then P.TakeToken
    else P.Receive
  }

  /** In a drained reconciler every configured entry is relevant. */
  lemma DrainedRelevant(env: Env, s: Whole)
    requires Inv(env, s) && R.Drained(s.watch)
    ensures ConfiguredRelevant(env, s.watch.ctl)
  {
    var w := s.watch;
    forall n | Configured(w.ctl.entries, n) ensures Relevant(env.controller, w.ctl.classes, w.ctl.entries[n].ingress) {
      assert R.Scheduled(w, n) || R.Fresh(env, w, n);
      assert w.ctl.classes == w.cluster.classes;
    }
  }

  /** Run and the proxy move the latest configuration along, or begin the common reconcile that was asked for. */
  lemma RunAdvances(env: Env, conf: ControllerConf, s: Whole) returns (step: Step)
    requires Ready(env, conf, s) && R.Drained(s.watch)
    requires !P.Quiet(View(s)) && (s.pub.pc.Idle? || s.pub.pc.Took? || s.pub.pc.Sending?)
    ensures Advances(env, conf, s, step)
  {
    var entries := s.watch.ctl.entries;
    var order := ListingExists(set n | n in entries && Configured(entries, n));
    assert IsOrder(entries, order);
    step := Publish(RunStep(s, order));
    DrainedRelevant(env, s);
    PublishFrame(env, s, step);
    PublishReady(env, conf, s, step);
    RunRank(env, s, step.p);
  }

  lemma RunRank(env: Env, s: Whole, p: P.Step)
    requires Enabled(env, s, Publish(p)) && (p.Compute? || p.Send? || p.TakeToken? || p.TakeCommon? || p.Receive?)
    ensures Below(RankOf(Next(env, s, Publish(p))), RankOf(s))
  {
    var t := Next(env, s, Publish(p));
    assert t.watch == s.watch;
  }

  // Steps of the watch

  /** Watch steps leave the cluster and the common part alone, and deliver changes without adding any. */
  lemma WatchFrame(env: Env, w: R.Sys, step: R.Step)
    requires R.Enabled(env, w, step) && Internal(Watch(step))
    ensures var t := R.Next(env, w, step);
            && t.cluster == w.cluster && t.ctl.config == w.ctl.config && t.ctl.tcp == w.ctl.tcp
            && (!step.Finish? ==> t.ctl.entries == w.ctl.entries)
            && t.pendingServices <= w.pendingServices
  {
  }

  lemma HarmlessFrame(env: Env, conf: ControllerConf, s: Whole, step: Step)
    requires HarmlessChanges(env, conf, s) && Enabled(env, s, step) && step.Watch? && Internal(step)
    requires step.w.Finish? ==> Delivered(s.watch)
    ensures HarmlessChanges(env, conf, Next(env, s, step))
  {
    var t := Next(env, s, step);
    WatchFrame(env, s.watch, step.w);
    forall n | n in t.watch.pendingServices
      ensures !IsUpstreamOf(env, conf, n) || R.ServiceUsers(t.watch.ctl, n) == {}
      ensures BacksTcp(conf, n) ==> TcpFine(env, t)
    {
      assert n in s.watch.pendingServices;
      assert R.ServiceUsers(t.watch.ctl, n) == R.ServiceUsers(s.watch.ctl, n);
    }
  }

  lemma WatchReady(env: Env, conf: ControllerConf, s: Whole, step: Step)
    requires Ready(env, conf, s) && Enabled(env, s, step) && Tame(env, s, step) && step.Watch? && Internal(step)
    requires (step.w.Finish? ==> Delivered(s.watch)) && Guarded(env, Next(env, s, step))
    ensures Ready(env, conf, Next(env, s, step))
  {
    WatchKeeps(env, s, step);
    WatchFrame(env, s.watch, step.w);
    HarmlessFrame(env, conf, s, step);
  }

  /** A step of the watch that performs no operation. */
  lemma QuietGuarded(env: Env, s: Whole, w: R.Step)
    requires Enabled(env, s, Watch(w)) && Internal(Watch(w)) && !w.DeliverClass? && !w.Finish? && Guarded(env, s)
    ensures Guarded(env, Next(env, s, Watch(w)))
  {
    assert R.Next(env, s.watch, w).ctl == s.watch.ctl;
  }

  /** The class handler scans for the class it has delivered. */
  lemma ScanAdvances(env: Env, conf: ControllerConf, s: Whole)
    requires Ready(env, conf, s) && s.watch.classScan.Some?
    ensures Advances(env, conf, s, Watch(R.ScanClass(s.watch.cluster)))
  {
    var w := R.ScanClass(s.watch.cluster);
    SeesItself(s.watch);
    QuietGuarded(env, s, w);
    WatchReady(env, conf, s, Watch(w));
    ScanRank(env, s, w);
  }

  lemma ScanRank(env: Env, s: Whole, w: R.Step)
    requires Enabled(env, s, Watch(w)) && w.ScanClass?
    ensures Below(RankOf(Next(env, s, Watch(w))), RankOf(s))
  {
  }

  /** The class handler delivers its next event, and requests a publish if that changes anything. */
  lemma ClassAdvances(env: Env, conf: ControllerConf, s: Whole)
    requires Ready(env, conf, s) && s.watch.pendingClasses != [] && s.watch.classScan.None?
    ensures Advances(env, conf, s, Watch(R.DeliverClass))
  {
    ClassGuarded(env, s);
    WatchReady(env, conf, s, Watch(R.DeliverClass));
    ClassRank(env, s);
  }

  lemma ClassGuarded(env: Env, s: Whole)
    requires Enabled(env, s, Watch(R.DeliverClass)) && Guarded(env, s)
    ensures Tame(env, s, Watch(R.DeliverClass)) && Guarded(env, Next(env, s, Watch(R.DeliverClass)))
  {
    var e, ctl := s.watch.pendingClasses[0], s.watch.ctl;
    if e.Deleted? && e.name !in ctl.classes {
      assert ctl.classes - {e.name} == ctl.classes;
    }
  }

  lemma ClassRank(env: Env, s: Whole)
    requires Enabled(env, s, Watch(R.DeliverClass))
    ensures Below(RankOf(Next(env, s, Watch(R.DeliverClass))), RankOf(s))
  {
  }

  /** The watch delivers an outstanding change of an ingress, a service or a secret. */
  lemma DeliveryAdvances(env: Env, conf: ControllerConf, s: Whole, w: R.Step)
    requires Ready(env, conf, s) && R.Enabled(env, s.watch, w) && (w.DeliverIngress? || w.DeliverService? || w.DeliverSecret?)
    ensures Advances(env, conf, s, Watch(w))
  {
    DeliveryTame(env, conf, s, w);
    QuietGuarded(env, s, w);
    WatchReady(env, conf, s, Watch(w));
    DeliveryRank(env, s, w);
  }

  lemma DeliveryTame(env: Env, conf: ControllerConf, s: Whole, w: R.Step)
    requires CanGo(env, conf, s) && R.Enabled(env, s.watch, w) && (w.DeliverIngress? || w.DeliverService? || w.DeliverSecret?)
    ensures Tame(env, s, Watch(w))
  {
    if w.DeliverService? {
      assert IsUpstream(s.watch.ctl, env.namespace, w.n) ==> IsUpstreamOf(env, conf, w.n);
    }
  }

  lemma DeliveryRank(env: Env, s: Whole, w: R.Step)
    requires Enabled(env, s, Watch(w)) && (w.DeliverIngress? || w.DeliverService? || w.DeliverSecret?)
    ensures Below(RankOf(Next(env, s, Watch(w))), RankOf(s))
  {
  }

  /** A reconcile finishes: it succeeds, or its name is queued already. */
  lemma FinishAdvances(env: Env, conf: ControllerConf, s: Whole, n: Name)
    requires Ready(env, conf, s) && Delivered(s.watch) && n in s.watch.inflight
    ensures Advances(env, conf, s, Watch(R.Finish(n, Still(s.watch.cluster))))
  {
    SeesItself(s.watch);
    FinishTame(env, s, n, Still(s.watch.cluster));
    WatchReady(env, conf, s, Watch(R.Finish(n, Still(s.watch.cluster))));
    FinishSettlesWork(env, conf, s, n, Still(s.watch.cluster));
  }

  /** With the guard, no reconcile drops anything unseen. */
  lemma FinishTame(env: Env, s: Whole, n: Name, v: Views)
    requires R.Consistent(s.watch) && Enabled(env, s, Watch(R.Finish(n, v))) && Guarded(env, s)
    ensures Tame(env, s, Watch(R.Finish(n, v))) && Guarded(env, Next(env, s, Watch(R.Finish(n, v))))
  {
    var t := Next(env, s, Watch(R.Finish(n, v)));
    OpIsPerformed(env, s.watch, R.Finish(n, v));
    if !t.pub.token && !P.Underway(t.pub.pc) {
      forall m | Configured(t.watch.ctl.entries, m)
        ensures Relevant(env.controller, t.watch.ctl.classes, t.watch.ctl.entries[m].ingress)
      {
        assert Configured(s.watch.ctl.entries, m);
      }
    }
  }

  /** A queued name is taken. */
  lemma BeginAdvances(env: Env, conf: ControllerConf, s: Whole, n: Name)
    requires Ready(env, conf, s) && s.watch.inflight == map[] && n in s.watch.queue && s.watch.ctl.config.Some?
    ensures Advances(env, conf, s, Watch(R.Begin(n, s.watch.cluster)))
  {
    SeesItself(s.watch);
    QuietGuarded(env, s, R.Begin(n, s.watch.cluster));
    WatchReady(env, conf, s, Watch(R.Begin(n, s.watch.cluster)));
    BeginRank(env, s, n, s.watch.cluster);
  }

  // Settling

  lemma DeliveriesAdvance(env: Env, conf: ControllerConf, s: Whole) returns (step: Step)
    requires Ready(env, conf, s) && !Delivered(s.watch)
    ensures Advances(env, conf, s, step)
  {
    var w := s.watch;
    if w.classScan.Some? {
      step := Watch(R.ScanClass(w.cluster));
      ScanAdvances(env, conf, s);
    } else if w.pendingClasses != [] {
      step := Watch(R.DeliverClass);
      ClassAdvances(env, conf, s);
    } else {
      var d;
      if w.pendingIngresses != {} {
        var n :| n in w.pendingIngresses;
        d := R.DeliverIngress(n);
      } else if w.pendingServices != {} {
        var n :| n in w.pendingServices;
        d := R.DeliverService(n);
      } else {
        var n :| n in w.pendingSecrets;
        d := R.DeliverSecret(n);
      }
      step := Watch(d);
      DeliveryAdvances(env, conf, s, d);
    }
  }

  lemma SomeStepAdvances(env: Env, conf: ControllerConf, s: Whole) returns (step: Step)
    requires Ready(env, conf, s) && !Quiescent(s)
    ensures Advances(env, conf, s, step)
  {
    var w := s.watch;
    if !Delivered(w) {
      step := DeliveriesAdvance(env, conf, s);
    } else if s.pub.pc.NotStarted? || s.pub.pc.Common? {
      step := Publish(StartStep(conf, s));
      StartAdvances(env, conf, s);
    } else if w.inflight.Keys != {} {
      var n :| n in w.inflight.Keys;
      step := Watch(R.Finish(n, Still(w.cluster)));
      FinishAdvances(env, conf, s, n);
    } else if w.queue != {} {
      var n :| n in w.queue;
      step := Watch(R.Begin(n, w.cluster));
      BeginAdvances(env, conf, s, n);
    } else {
      step := RunAdvances(env, conf, s);
    }
  }

  /** From every ready state, tame internal steps lead to quiescence. */
  lemma {:induction false} Settles(env: Env, conf: ControllerConf, s: Whole) returns (states: seq<Whole>, steps: seq<Step>)
    requires Ready(env, conf, s)
    ensures Path(env, states, steps) && states[0] == s
    ensures Quiescent(states[|steps|]) && Ready(env, conf, states[|steps|])
    decreases RankOf(s).classes, RankOf(s).changes, RankOf(s).common, RankOf(s).work,
              RankOf(s).token, RankOf(s).run, RankOf(s).channel
  {
    if Quiescent(s) {
      states, steps := [s], [];
    } else {
      var step := SomeStepAdvances(env, conf, s);
      var rest, more := Settles(env, conf, Next(env, s, step));
      states, steps := [s] + rest, [step] + more;
      PathPrepend(env, s, step, rest, more);
    }
  }

  lemma PathPrepend(env: Env, s: Whole, step: Step, states: seq<Whole>, steps: seq<Step>)
    requires Path(env, states, steps)
    requires Internal(step) && Enabled(env, s, step) && Tame(env, s, step) && states[0] == Next(env, s, step)
    ensures Path(env, [s] + states, [step] + steps)
  {
  }

  lemma {:induction false} PathKeepsCluster(env: Env, states: seq<Whole>, steps: seq<Step>, i: nat)
    requires Path(env, states, steps) && i < |states|
    ensures states[i].watch.cluster == states[0].watch.cluster
    decreases i
  {
    if i > 0 {
      PathKeepsCluster(env, states, steps, i - 1);
      StepKeepsCluster(env, states[i - 1], steps[i - 1]);
    }
  }

  lemma StepKeepsCluster(env: Env, s: Whole, step: Step)
    requires Enabled(env, s, step) && Internal(step)
    ensures Next(env, s, step).watch.cluster == s.watch.cluster
  {
    if step.Watch? {
      WatchFrame(env, s.watch, step.w);
    }
  }

  /** Every tame run can be continued, by tame internal steps alone, to a quiescent state; unless Run gave up at Init,
      an undelivered service change is one that requeues nothing, a configured entry has lost its class with no
      publish requested, or a relevant ingress or the common part cannot be loaded. */
  lemma CanSettle(env: Env, conf: ControllerConf, states: seq<Whole>, steps: seq<Step>)
    returns (more: seq<Whole>, moves: seq<Step>)
    requires TameRun(env, states, steps) && CanGo(env, conf, states[|steps|])
    ensures TameRun(env, states + more, steps + moves) && |more| == |moves|
    ensures forall j :: 0 <= j < |moves| ==> Internal(moves[j])
    ensures var t := (states + more)[|steps + moves|];
            Quiescent(t) && t.watch.ctl.config == Some(conf) && t.watch.cluster == states[|steps|].watch.cluster
  {
    RunKeeps(env, states, steps, |steps|);
    var path;
    path, moves := Settles(env, conf, states[|steps|]);
    more := path[1..];
    PathKeepsCluster(env, path, moves, |moves|);
    QuiescentInv(env, path[|moves|]);
    RunThenPath(env, states, steps, path, moves);
  }

  lemma RunThenPath(env: Env, states: seq<Whole>, steps: seq<Step>, path: seq<Whole>, moves: seq<Step>)
    requires TameRun(env, states, steps) && Path(env, path, moves) && path[0] == states[|steps|]
    ensures TameRun(env, states + path[1..], steps + moves)
    ensures (states + path[1..])[|steps + moves|] == path[|moves|]
  {
    var all, every := states + path[1..], steps + moves;
    forall i | 0 <= i < |every|
      ensures Enabled(env, all[i], every[i]) && Tame(env, all[i], every[i]) && all[i + 1] == Next(env, all[i], every[i])
    {
      if i < |steps| {
        assert all[i] == states[i] && all[i + 1] == states[i + 1] && every[i] == steps[i];
      } else {
        assert all[i] == path[i - |steps|] && all[i + 1] == path[i + 1 - |steps|] && every[i] == moves[i - |steps|];
      }
    }
  }

  // Every schedule settles

  /** Ready, with everything delivered and no configured entry that has lost its class. */
  ghost predicate Steadying(env: Env, conf: ControllerConf, s: Whole) {
    Ready(env, conf, s) && Delivered(s.watch) && ConfiguredRelevant(env, s.watch.ctl)
  }

  lemma SteadyReads(w: R.Sys, v: Views)
    requires R.SeesAll(w, v) && w.pendingServices == {} && w.pendingSecrets == {}
    ensures Steady(v, w.cluster)
  {
    forall k ensures v(k).services == w.cluster.services && v(k).secrets == w.cluster.secrets {
      assert R.Sees(w, v(k));
      SameLookups(v(k).services, w.cluster.services);
      SameLookups(v(k).secrets, w.cluster.secrets);
    }
  }

  /** Once everything is delivered, no reconcile needs to be retried. */
  lemma FinishSettlesWork(env: Env, conf: ControllerConf, s: Whole, n: Name, v: Views)
    requires Ready(env, conf, s) && Delivered(s.watch) && Enabled(env, s, Watch(R.Finish(n, v)))
    ensures Below(RankOf(Next(env, s, Watch(R.Finish(n, v)))), RankOf(s))
  {
    var w, t := s.watch, R.Next(env, s.watch, R.Finish(n, v));
    SteadyReads(w, v);
    FinishSteady(env, conf, w, n, v);
    OneLess(w.inflight, n);
    assert t.queue == w.queue;
  }

  lemma FinishSteady(env: Env, conf: ControllerConf, w: R.Sys, n: Name, v: Views)
    requires R.Consistent(w) && Delivered(w) && n in w.inflight && Compiles(env, conf, w.cluster) && Steady(v, w.cluster)
    requires w.ctl.config.Some? ==> w.ctl.config == Some(conf)
    ensures n in w.queue || R.FinishResult(env, w, n, v).Ok?
  {
    if n !in w.queue && w.inflight[n].Some? {
      assert w.inflight[n] == Some(w.cluster.ingresses[n]);
      assert w.ctl.classes == w.cluster.classes;
      CompileSteady(env.libs, conf, v, w.cluster, w.cluster.ingresses[n]);
    }
  }

  lemma BeginRank(env: Env, s: Whole, n: Name, cache: Cluster)
    requires s.watch.ctl.config.Some? && Enabled(env, s, Watch(R.Begin(n, cache)))
    ensures Below(RankOf(Next(env, s, Watch(R.Begin(n, cache)))), RankOf(s))
  {
    var w := s.watch;
    OneIn(w.queue, n);
    OneMore(w.inflight, n, Lookup(cache.ingresses, n));
  }

  lemma OneIn<T>(a: set<T>, x: T)
    requires x in a
    ensures |a - {x}| == |a| - 1
  {
  }

  lemma OneLess<K, V>(m: map<K, V>, k: K)
    requires k in m
    ensures |(m - {k}).Keys| == |m.Keys| - 1
  {
    assert (m - {k}).Keys == m.Keys - {k};
  }

  lemma OneMore<K, V>(m: map<K, V>, k: K, v: V)
    requires k !in m
    ensures |m[k := v].Keys| == |m.Keys| + 1
  {
    assert m[k := v].Keys == m.Keys + {k};
  }

  lemma FinishRelevant(env: Env, s: Whole, n: Name, v: Views)
    requires R.Consistent(s.watch) && Enabled(env, s, Watch(R.Finish(n, v))) && ConfiguredRelevant(env, s.watch.ctl)
    ensures ConfiguredRelevant(env, Next(env, s, Watch(R.Finish(n, v))).watch.ctl)
  {
    OpIsPerformed(env, s.watch, R.Finish(n, v));
  }

  lemma WorkAdvances(env: Env, conf: ControllerConf, s: Whole, w: R.Step)
    requires Steadying(env, conf, s) && Enabled(env, s, Watch(w)) && Productive(conf, s, Watch(w))
    ensures Advances(env, conf, s, Watch(w)) && Steadying(env, conf, Next(env, s, Watch(w)))
  {
    match w
    case Begin(n, cache) =>
      QuietGuarded(env, s, w);
      WatchReady(env, conf, s, Watch(w));
      BeginRank(env, s, n, cache);
    case Finish(n, v) =>
      FinishTame(env, s, n, v);
      WatchReady(env, conf, s, Watch(w));
      FinishSettlesWork(env, conf, s, n, v);
      FinishRelevant(env, s, n, v);
  }

  lemma RunStepAdvances(env: Env, conf: ControllerConf, s: Whole, p: P.Step)
    requires Steadying(env, conf, s) && Enabled(env, s, Publish(p)) && Productive(conf, s, Publish(p))
    ensures Advances(env, conf, s, Publish(p)) && Steadying(env, conf, Next(env, s, Publish(p)))
  {
    PublishFrame(env, s, Publish(p));
    PublishReady(env, conf, s, Publish(p));
    if p.Compute? || p.Send? || p.TakeToken? || p.TakeCommon? || p.Receive? {
      RunRank(env, s, p);
    } else {
      StartRank(env, s, p);
    }
  }

  /** Whatever productive step is taken next, it brings the system closer to quiescence. */
  lemma EveryStepAdvances(env: Env, conf: ControllerConf, s: Whole, step: Step)
    requires Steadying(env, conf, s) && Enabled(env, s, step) && Productive(conf, s, step)
    ensures Advances(env, conf, s, step) && Steadying(env, conf, Next(env, s, step))
  {
    if step.Watch? {
      WorkAdvances(env, conf, s, step.w);
    } else {
      RunStepAdvances(env, conf, s, step.p);
    }
  }

  ghost predicate InfiniteRun(env: Env, conf: ControllerConf, states: nat -> Whole, steps: nat -> Step) {
    forall i: nat :: Enabled(env, states(i), steps(i)) && Productive(conf, states(i), steps(i))
                  && states(i + 1) == Next(env, states(i), steps(i))
  }

  lemma {:induction false} Descends(env: Env, conf: ControllerConf, states: nat -> Whole, steps: nat -> Step, k: nat)
    requires Steadying(env, conf, states(k))
    ensures !InfiniteRun(env, conf, states, steps)
    decreases RankOf(states(k)).classes, RankOf(states(k)).changes, RankOf(states(k)).common, RankOf(states(k)).work,
              RankOf(states(k)).token, RankOf(states(k)).run, RankOf(states(k)).channel
  {
    if InfiniteRun(env, conf, states, steps) {
      EveryStepAdvances(env, conf, states(k), steps(k));
      Descends(env, conf, states, steps, k + 1);
    }
  }

  /** Every schedule settles: once everything is delivered, no schedule of productive steps goes on for ever, and one
      can only end where the system is quiescent. */
  lemma EveryScheduleSettles(env: Env, conf: ControllerConf, s: Whole)
    requires Steadying(env, conf, s)
    ensures forall states: nat -> Whole, steps: nat -> Step :: states(0) == s ==> !InfiniteRun(env, conf, states, steps)
    ensures (forall step :: Enabled(env, s, step) ==> !Productive(conf, s, step)) <==> Quiescent(s)
  {
    forall states: nat -> Whole, steps: nat -> Step | states(0) == s ensures !InfiniteRun(env, conf, states, steps) {
      Descends(env, conf, states, steps, 0);
    }
    if !Quiescent(s) {
      var step := SomeStepAdvances(env, conf, s);
    }
  }

  // Startup

  lemma InitialReady(env: Env, conf: ControllerConf, s: Whole)
    requires Initial(s) && Compiles(env, conf, s.watch.cluster) && CommonLoads(env, conf, s.watch.cluster)
    ensures CanGo(env, conf, s)
  {
  }

  /** Startup converges: from any initial cluster whose relevant ingresses compile under conf, and which holds what the
      common reconcile reads, some tame run of internal steps ends with the proxy running an aggregate of the build
      from scratch of that cluster, with its default certificate and TCP endpoints. */
  lemma StartupConverges(env: Env, conf: ControllerConf, s: Whole) returns (states: seq<Whole>, steps: seq<Step>)
    requires Initial(s) && Compiles(env, conf, s.watch.cluster) && CommonLoads(env, conf, s.watch.cluster)
    ensures TameRun(env, states, steps) && states[0] == s && Quiescent(states[|steps|])
    ensures forall j :: 0 <= j < |steps| ==> Internal(steps[j])
    ensures var t := states[|steps|];
            && t.watch.cluster == s.watch.cluster && t.watch.ctl.config == Some(conf)
            && R.IsRebuild(env, Some(conf), s.watch.cluster, t.watch.ctl.entries)
            && IsAggregate(Installed(t), t.watch.ctl)
            && DefaultTls(env, conf, s.watch.cluster) == Ok(t.watch.ctl.defaultTls)
            && TcpOf(env, conf, s.watch.cluster) == Ok(t.watch.ctl.tcp)
  {
    InitialReady(env, conf, s);
    var more, moves := CanSettle(env, conf, [s], []);
    states, steps := [s] + more, moves;
    assert [] + moves == moves;
    RunKeeps(env, states, steps, |steps|);
    QuiescentInv(env, states[|steps|]);
  }

  // Init exits

  /** A step of an internal run on which the configuration, when it can be loaded, is conf. */
  ghost predicate Loads(conf: ControllerConf, step: Step) {
    Internal(step) && (step.Publish? && step.p.UpdateConfig? ==> step.p.conf == conf)
  }

  ghost predicate StartPath(env: Env, conf: ControllerConf, states: seq<Whole>, steps: seq<Step>) {
    && |states| == |steps| + 1
    && forall i :: 0 <= i < |steps| ==>
         && Loads(conf, steps[i]) && Enabled(env, states[i], steps[i]) && states[i + 1] == Next(env, states[i], steps[i])
  }

  /** Run is still in Init, or has given up, and has computed nothing. */
  ghost predicate StuckInInit(conf: ControllerConf, s: Whole) {
    && s.watch.pendingServices == {} && s.watch.pendingSecrets == {} && s.pub.computed == []
    && (s.pub.pc.NotStarted? || s.pub.pc.Exited? || (s.pub.pc.Common? && s.pub.pc.init && s.pub.pc.stage <= 3))
    && (s.pub.pc.Common? && s.pub.pc.stage >= 1 ==> s.watch.ctl.config == Some(conf))
  }

  lemma SeesSettled(w: R.Sys, c: Cluster)
    requires R.Sees(w, c) && w.pendingServices == {} && w.pendingSecrets == {}
    ensures forall n :: Lookup(c.secrets, n) == Lookup(w.cluster.secrets, n) && Lookup(c.services, n) == Lookup(w.cluster.services, n)
  {
  }

  /** With everything about services and secrets delivered, a missing default secret or TCP service stops Init. */
  lemma StepKeepsStuck(env: Env, conf: ControllerConf, s: Whole, step: Step)
    requires StuckInInit(conf, s) && !CommonLoads(env, conf, s.watch.cluster) && Loads(conf, step) && Enabled(env, s, step)
    requires s.pub.pc.Common? && s.pub.pc.stage >= 2 ==> DefaultTls(env, conf, s.watch.cluster).Ok?
    ensures StuckInInit(conf, Next(env, s, step))
    ensures var t := Next(env, s, step);
            t.pub.pc.Common? && t.pub.pc.stage >= 2 ==> DefaultTls(env, conf, s.watch.cluster).Ok?
  {
    if step.Watch? {
      WatchFrame(env, s.watch, step.w);
      WatchStuck(env, s, step.w);
    } else {
      RunStuck(env, conf, s, step.p);
    }
  }

  lemma RunStuck(env: Env, conf: ControllerConf, s: Whole, p: P.Step)
    requires StuckInInit(conf, s) && !CommonLoads(env, conf, s.watch.cluster)
    requires Loads(conf, Publish(p)) && Enabled(env, s, Publish(p))
    requires s.pub.pc.Common? && s.pub.pc.stage >= 2 ==> DefaultTls(env, conf, s.watch.cluster).Ok?
    ensures StuckInInit(conf, Next(env, s, Publish(p)))
    ensures var t := Next(env, s, Publish(p));
            t.pub.pc.Common? && t.pub.pc.stage >= 2 ==> DefaultTls(env, conf, s.watch.cluster).Ok?
  {
    match p
    case UpdateTls(cache) => TlsAsGiven(env, conf, s, cache);
    case UpdateTcp(views) => TcpAsGiven(env, conf, s, views);
    case _ =>
  }

  lemma TlsAsGiven(env: Env, conf: ControllerConf, s: Whole, cache: Cluster)
    requires R.Sees(s.watch, cache) && s.watch.pendingServices == {} && s.watch.pendingSecrets == {}
    ensures DefaultTls(env, conf, cache) == DefaultTls(env, conf, s.watch.cluster)
  {
    SeesSettled(s.watch, cache);
    DefaultTlsBy(env, conf, cache, s.watch.cluster);
  }

  lemma TcpAsGiven(env: Env, conf: ControllerConf, s: Whole, v: Views)
    requires R.SeesAll(s.watch, v) && s.watch.pendingServices == {} && s.watch.pendingSecrets == {}
    ensures TcpProxies(env.libs, v, conf.tcpProxy, []) == TcpOf(env, conf, s.watch.cluster)
  {
    forall k, n ensures Lookup(v(k).services, n) == Lookup(s.watch.cluster.services, n) {
      SeesSettled(s.watch, v(k));
    }
    TcpOfBy(env, conf, v, s.watch.cluster);
  }

  lemma WatchStuck(env: Env, s: Whole, w: R.Step)
    requires Enabled(env, s, Watch(w)) && Internal(Watch(w))
    ensures var t := Next(env, s, Watch(w));
            && t.pub.pc == s.pub.pc && t.pub.computed == s.pub.computed
            && t.watch.pendingServices <= s.watch.pendingServices && t.watch.pendingSecrets <= s.watch.pendingSecrets
            && t.watch.ctl.config == s.watch.ctl.config
  {
  }

  lemma {:induction false} PathStuck(env: Env, conf: ControllerConf, states: seq<Whole>, steps: seq<Step>, i: nat)
    requires StartPath(env, conf, states, steps) && i < |states|
    requires StuckInInit(conf, states[0]) && states[0].pub.pc.NotStarted? && !CommonLoads(env, conf, states[0].watch.cluster)
    ensures StuckInInit(conf, states[i]) && states[i].watch.cluster == states[0].watch.cluster
    ensures states[i].pub.pc.Common? && states[i].pub.pc.stage >= 2 ==> DefaultTls(env, conf, states[0].watch.cluster).Ok?
    decreases i
  {
    if i > 0 {
      PathStuck(env, conf, states, steps, i - 1);
      StepKeepsStuck(env, conf, states[i - 1], steps[i - 1]);
      StepKeepsCluster(env, states[i - 1], steps[i - 1]);
    }
  }

  /** From an initial state with no undelivered service or secret, and relevant ingresses that compile, Run can bring
      the proxy a configuration without any change of the cluster exactly when the default secret and the TCP services
      of conf load; otherwise Init stops or exits, whatever is done. */
  lemma StartupConvergesExactly(env: Env, conf: ControllerConf, s: Whole)
    requires Initial(s) && Compiles(env, conf, s.watch.cluster)
    requires s.watch.pendingServices == {} && s.watch.pendingSecrets == {}
    ensures (exists states: seq<Whole>, steps: seq<Step> ::
               StartPath(env, conf, states, steps) && states[0] == s && states[|steps|].pub.installed != [])
       <==> CommonLoads(env, conf, s.watch.cluster)
  {
    if CommonLoads(env, conf, s.watch.cluster) {
      var states, steps := StartupConverges(env, conf, s);
      ConvergedPath(env, conf, states, steps);
    } else {
      forall states: seq<Whole>, steps: seq<Step> | StartPath(env, conf, states, steps) && states[0] == s
        ensures states[|steps|].pub.installed == []
      {
        PathStuck(env, conf, states, steps, |steps|);
        PathFifo(env, conf, states, steps, |steps|);
      }
    }
  }

  /** The configuration never changes on a tame run. */
  lemma ConvergedPath(env: Env, conf: ControllerConf, states: seq<Whole>, steps: seq<Step>)
    requires TameRun(env, states, steps) && Quiescent(states[|steps|]) && states[|steps|].watch.ctl.config == Some(conf)
    requires forall j :: 0 <= j < |steps| ==> Internal(steps[j])
    ensures StartPath(env, conf, states, steps) && states[|steps|].pub.installed != []
  {
    RunKeeps(env, states, steps, |steps|);
    QuiescentInv(env, states[|steps|]);
    forall j | 0 <= j < |steps| ensures Loads(conf, steps[j]) {
      if steps[j].Publish? && steps[j].p.UpdateConfig? {
        ConfigStays(env, states, steps, j + 1, |steps|);
      }
    }
  }

  lemma {:induction false} ConfigStays(env: Env, states: seq<Whole>, steps: seq<Step>, i: nat, j: nat)
    requires TameRun(env, states, steps) && i <= j < |states| && states[i].watch.ctl.config.Some?
    requires forall k :: 0 <= k < |steps| ==> Internal(steps[k])
    ensures states[j].watch.ctl.config == states[i].watch.ctl.config
    decreases j
  {
    if i < j {
      ConfigStays(env, states, steps, i, j - 1);
      StepKeepsConfig(env, states[j - 1], steps[j - 1]);
    }
  }

  lemma StepKeepsConfig(env: Env, s: Whole, step: Step)
    requires Enabled(env, s, step) && Internal(step) && Tame(env, s, step) && s.watch.ctl.config.Some?
    ensures Next(env, s, step).watch.ctl.config == s.watch.ctl.config
  {
    if step.Watch? {
      WatchFrame(env, s.watch, step.w);
    } else {
      PublishFrame(env, s, step);
    }
  }

  lemma {:induction false} PathFifo(env: Env, conf: ControllerConf, states: seq<Whole>, steps: seq<Step>, i: nat)
    requires StartPath(env, conf, states, steps) && i < |states| && Initial(states[0])
    ensures P.Fifo(states[i].pub) && |states[i].pub.installed| <= |states[i].pub.computed|
    decreases i
  {
    if i > 0 {
      PathFifo(env, conf, states, steps, i - 1);
      StepKeepsFifo(env, states[i - 1], steps[i - 1]);
    }
  }

  lemma StepKeepsFifo(env: Env, s: Whole, step: Step)
    requires P.Fifo(s.pub) && Enabled(env, s, step)
    ensures P.Fifo(Next(env, s, step).pub)
  {
    if step.Publish? {
      P.FifoKept(env, View(s), step.p);
    }
  }
}
