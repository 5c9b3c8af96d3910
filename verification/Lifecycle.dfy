/** Proxy.Start of pkg/proxy/proxy.go: waiting for a configuration, starting
    the listeners, serving, and leaving once enough listeners have reported. */
module Lifecycle {
  import opened Prelude

  datatype Listener = Https | Http | Quic | StatusPage

  /** A sender on the error channel: one of the four listeners, or a TCP proxy. */
  datatype Source = Core(l: Listener) | Tcp(i: nat)

  datatype Phase = Waiting | Starting | Serving | Left

  datatype State = State(
    phase: Phase,
    ready: bool,
    installed: Option<nat>,
    handlerCount: nat,
    handlerErrors: seq<Source>,
    shutdownInitiated: bool)

  const INITIAL := State(Waiting, false, None, 0, [], false)

  /** What the select statements and the listener start may see next. Configurations are numbered. */
  datatype Input =
    | Config(id: nat)
    | ListenersUp(tcp: nat)
    | ListenersFail
    | Report(source: Source)
    | Shutdown

  function Step(s: State, e: Input): State {
    match s.phase
    case Waiting =>
      (match e
       case Config(id) => s.(installed := Some(id), phase := Starting)
       case Shutdown => s.(phase := Left)
       case _ => s)
    case Starting =>
      (match e
       case ListenersUp(tcp) => s.(handlerCount := 4 + tcp, ready := true, phase := Serving)
       case ListenersFail => s.(phase := Left)
       case _ => s)
    case Serving =>
      (match e
       case Config(id) => s.(installed := Some(id))
       case Report(source) =>
         var errors := s.handlerErrors + [source];
         s.(ready := false, handlerErrors := errors, phase := if |errors| < s.handlerCount then Serving else Left)
       case Shutdown => s.(ready := false, shutdownInitiated := true)
       case _ => s)
    case Left => s
  }

  function After(s: State, inputs: seq<Input>): State {
    if inputs == [] then s
    else Step(After(s, inputs[..|inputs| - 1]), inputs[|inputs| - 1])
  }

  /** How often a source has reported by the end of a script of inputs. */
  function Reports(inputs: seq<Input>, source: Source): nat {
    if inputs == [] then 0
    else Reports(inputs[..|inputs| - 1], source) + (if inputs[|inputs| - 1] == Report(source) then 1 else 0)
  }

  /** The environment: each of the four listeners reports at most once, and a started TCP proxy at most three times
      (the accept error, the close error and the final nil); nothing else reports. */
  ghost predicate Possible(inputs: seq<Input>, tcp: nat) {
    && (forall l :: Reports(inputs, Core(l)) <= 1)
    && (forall i: nat :: Reports(inputs, Tcp(i)) <= 3)
    && (forall i :: i >= tcp ==> Reports(inputs, Tcp(i)) == 0)
    && (forall j :: 0 <= j < |inputs| && inputs[j].ListenersUp? ==> inputs[j].tcp == tcp)
  }

  /** The proxy object. */
  class Proxy {
    var ready: bool
    var routingConfig: Option<nat>
    var phase: Phase
    var handlerCount: nat
    var handlerErrors: seq<Source>
    var shutdownInitiated: bool

    ghost function View(): State
      reads this
    {
      State(phase, ready, routingConfig, handlerCount, handlerErrors, shutdownInitiated)
    }

    constructor ()
      ensures View() == INITIAL
    {
      ready, routingConfig, phase, handlerCount, handlerErrors, shutdownInitiated := false, None, Waiting, 0, [], false;
    }

    method WaitForConfig(e: Input)
      requires phase.Waiting?
      modifies this
      ensures View() == Step(old(View()), e)
    {
      match e
      case Config(id) =>
        routingConfig := Some(id);
        phase := Starting;
      case Shutdown => phase := Left;
      case _ =>
    }

    /** The source panics here when no configuration is stored. */
    method StartListeners(e: Input)
      requires phase.Starting? && routingConfig.Some?
      modifies this
      ensures View() == Step(old(View()), e)
    {
      match e
      case ListenersUp(tcp) =>
        handlerCount := 4 + tcp;
        ready := true;
        phase := Serving;
      case ListenersFail => phase := Left;
      case _ =>
    }

    method Select(e: Input)
      requires phase.Serving? && (shutdownInitiated ==> !ready)
      modifies this
      ensures View() == Step(old(View()), e)
    {
      match e
      case Config(id) => routingConfig := Some(id);
      case Report(source) =>
        ready := false;
        handlerErrors := handlerErrors + [source];
        if |handlerErrors| >= handlerCount {
          phase := Left;
        }
      case Shutdown =>
        if shutdownInitiated {
          return;
        }
        ready := false;
        shutdownInitiated := true;
      case _ =>
    }

    /** Start against a script of what it will see; the uninitialised-configuration panic is unreachable. */
    method Start(inputs: seq<Input>)
      requires View() == INITIAL
      modifies this
      ensures View() == After(INITIAL, inputs)
    {
      for i := 0 to |inputs|
        invariant View() == After(INITIAL, inputs[..i])
        invariant phase.Starting? || phase.Serving? ==> routingConfig.Some?
        invariant ReadyWell(View())
      {
        assert inputs[..i + 1][..i] == inputs[..i];
        match phase {
          case Waiting => WaitForConfig(inputs[i]);
          case Starting => StartListeners(inputs[i]);
          case Serving => Select(inputs[i]);
          case Left =>
        }
      }
      assert inputs[..|inputs|] == inputs;
    }
  }

  // Readiness

  /** Ready exactly while serving, with a configuration and without a report or shutdown. */
  ghost predicate ReadyWell(s: State) {
    && (s.ready <==> s.phase.Serving? && s.handlerErrors == [] && !s.shutdownInitiated)
    && (s.phase.Starting? || s.phase.Serving? ==> s.installed.Some?)
    && (s.phase.Waiting? || s.phase.Starting? ==> !s.ready && s.handlerErrors == [] && !s.shutdownInitiated)
    && (s.phase.Serving? ==> |s.handlerErrors| < s.handlerCount)
  }

  lemma {:induction false} AfterReadyWell(inputs: seq<Input>)
    ensures ReadyWell(After(INITIAL, inputs))
  {
    if inputs != [] {
      AfterReadyWell(inputs[..|inputs| - 1]);
    }
  }

  lemma {:induction false} AfterSplit(s: State, a: seq<Input>, b: seq<Input>)
    ensures After(s, a + b) == After(After(s, a), b)
    decreases |b|
  {
    if b == [] {
      assert a + b == a;
    } else {
      AfterSplit(s, a, b[..|b| - 1]);
      assert (a + b)[..|a + b| - 1] == a + b[..|b| - 1];
    }
  }

  /** Serving or left, and not ready: readiness does not come back. */
  lemma {:induction false} StaysUnready(s: State, inputs: seq<Input>)
    requires !s.ready && (s.phase.Serving? || s.phase.Left?)
    ensures !After(s, inputs).ready && (After(s, inputs).phase.Serving? || After(s, inputs).phase.Left?)
    decreases |inputs|
  {
    if inputs != [] {
      StaysUnready(s, inputs[..|inputs| - 1]);
    }
  }

  lemma {:induction false} PhaseAfterReady(s: State, inputs: seq<Input>)
    requires s.phase.Serving? || s.phase.Left?
    ensures After(s, inputs).phase.Serving? || After(s, inputs).phase.Left?
    decreases |inputs|
  {
    if inputs != [] {
      PhaseAfterReady(s, inputs[..|inputs| - 1]);
    }
  }

  /** Over every interleaving, readiness goes up at most once and, once down again, stays down; while it is up a
      configuration is installed. */
  lemma ReadyOnce(a: seq<Input>, b: seq<Input>, c: seq<Input>)
    ensures After(INITIAL, a).ready ==> After(INITIAL, a).installed.Some?
    ensures After(INITIAL, a).ready && !After(INITIAL, a + b).ready ==> !After(INITIAL, a + b + c).ready
  {
    AfterReadyWell(a);
    if After(INITIAL, a).ready && !After(INITIAL, a + b).ready {
      AfterSplit(INITIAL, a, b);
      AfterSplit(INITIAL, a + b, c);
      PhaseAfterReady(After(INITIAL, a), b);
      StaysUnready(After(INITIAL, a + b), c);
    }
  }

  // What is installed, and the whole state while serving

  lemma {:induction false} KeepsInstalled(s: State, inputs: seq<Input>)
    requires forall e :: e in inputs ==> !e.Config?
    ensures After(s, inputs).installed == s.installed
    decreases |inputs|
  {
    if inputs != [] {
      KeepsInstalled(s, inputs[..|inputs| - 1]);
      assert inputs[|inputs| - 1] in inputs;
    }
  }

  /** The proxy runs the latest configuration it received: the first one, awaited, and every one while serving. */
  lemma LatestInstalled(a: seq<Input>, id: nat, b: seq<Input>)
    requires After(INITIAL, a).phase.Waiting? || After(INITIAL, a).phase.Serving?
    requires forall e :: e in b ==> !e.Config?
    ensures After(INITIAL, a + [Config(id)] + b).installed == Some(id)
  {
    AfterSplit(INITIAL, a + [Config(id)], b);
    AfterOne(INITIAL, a, Config(id));
    KeepsInstalled(After(INITIAL, a + [Config(id)]), b);
  }

  lemma AfterOne(s: State, a: seq<Input>, e: Input)
    ensures After(s, a + [e]) == Step(After(s, a), e)
  {
    assert (a + [e])[..|a|] == a;
  }

  /** Who reported, in order. */
  function Reported(inputs: seq<Input>): seq<Source> {
    if inputs == [] then []
    else
      var last := inputs[|inputs| - 1];
      Reported(inputs[..|inputs| - 1]) + (if last.Report? then [last.source] else [])
  }

  /** The last configuration received, or the one installed before. */
  function LastConfig(inputs: seq<Input>, before: nat): nat {
    if inputs == [] then before
    else if inputs[|inputs| - 1].Config? then inputs[|inputs| - 1].id
    else LastConfig(inputs[..|inputs| - 1], before)
  }

  /** A start: nothing but noise, a configuration, nothing but noise, and the listeners are up. */
  ghost predicate IsStart(w: seq<Input>, v: seq<Input>) {
    && (forall e :: e in w ==> !e.Config? && !e.Shutdown?)
    && (forall e :: e in v ==> !e.ListenersUp? && !e.ListenersFail?)
  }

  lemma {:induction false} StaysWaiting(w: seq<Input>)
    requires forall e :: e in w ==> !e.Config? && !e.Shutdown?
    ensures After(INITIAL, w) == INITIAL
  {
    if w != [] {
      StaysWaiting(w[..|w| - 1]);
      assert w[|w| - 1] in w;
    }
  }

  lemma {:induction false} StaysStarting(s: State, v: seq<Input>)
    requires s.phase.Starting? && forall e :: e in v ==> !e.ListenersUp? && !e.ListenersFail?
    ensures After(s, v) == s
    decreases |v|
  {
    if v != [] {
      StaysStarting(s, v[..|v| - 1]);
      assert v[|v| - 1] in v;
    }
  }

  /** Up with the first configuration: ready, nothing reported, four listeners and the TCP proxies awaited. */
  lemma StartedExactly(w: seq<Input>, id: nat, v: seq<Input>, tcp: nat)
    requires IsStart(w, v)
    ensures After(INITIAL, w + [Config(id)] + v + [ListenersUp(tcp)]) == State(Serving, true, Some(id), 4 + tcp, [], false)
  {
    StaysWaiting(w);
    AfterOne(INITIAL, w, Config(id));
    AfterSplit(INITIAL, w + [Config(id)], v);
    StaysStarting(After(INITIAL, w + [Config(id)]), v);
    AfterOne(INITIAL, w + [Config(id)] + v, ListenersUp(tcp));
  }

  /** A shutdown while waiting, or listeners that fail to start, end it for good. */
  lemma GivesUpExactly(w: seq<Input>, id: nat, v: seq<Input>, more: seq<Input>)
    requires IsStart(w, v)
    ensures After(INITIAL, w + [Shutdown] + more) == INITIAL.(phase := Left)
    ensures After(INITIAL, w + [Config(id)] + v + [ListenersFail] + more) == INITIAL.(phase := Left, installed := Some(id))
  {
    StaysWaiting(w);
    AfterOne(INITIAL, w, Shutdown);
    AfterSplit(INITIAL, w + [Shutdown], more);
    StaysLeft(After(INITIAL, w + [Shutdown]), more);
    AfterOne(INITIAL, w, Config(id));
    AfterSplit(INITIAL, w + [Config(id)], v);
    StaysStarting(After(INITIAL, w + [Config(id)]), v);
    AfterOne(INITIAL, w + [Config(id)] + v, ListenersFail);
    AfterSplit(INITIAL, w + [Config(id)] + v + [ListenersFail], more);
    StaysLeft(After(INITIAL, w + [Config(id)] + v + [ListenersFail]), more);
  }

  /** Until the last awaited report, the whole state is: serving the latest configuration, ready exactly when nothing
      was reported and no shutdown was asked for, with the reports so far. */
  lemma {:induction false} ServingExactly(s: State, id: nat, inputs: seq<Input>)
    requires s.phase.Serving? && s.ready && s.installed == Some(id) && s.handlerErrors == [] && !s.shutdownInitiated
    requires |Reported(inputs)| < s.handlerCount
    ensures var quiet := Reported(inputs) == [] && Shutdown !in inputs;
            After(s, inputs)
            == State(Serving, quiet, Some(LastConfig(inputs, id)), s.handlerCount, Reported(inputs), Shutdown in inputs)
    decreases |inputs|
  {
    if inputs != [] {
      var init, last := inputs[..|inputs| - 1], inputs[|inputs| - 1];
      ServingExactly(s, id, init);
      assert inputs == init + [last];
    }
  }

  /** With the last awaited report Start leaves, and nothing changes any more. */
  lemma LeavesExactly(s: State, id: nat, inputs: seq<Input>, x: Source, more: seq<Input>)
    requires s.phase.Serving? && s.ready && s.installed == Some(id) && s.handlerErrors == [] && !s.shutdownInitiated
    requires |Reported(inputs)| + 1 == s.handlerCount
    ensures After(s, inputs + [Report(x)] + more)
         == State(Left, false, Some(LastConfig(inputs, id)), s.handlerCount, Reported(inputs) + [x], Shutdown in inputs)
  {
    ServingExactly(s, id, inputs);
    AfterSplit(s, inputs + [Report(x)], more);
    AfterOne(s, inputs, Report(x));
    StaysLeft(After(s, inputs + [Report(x)]), more);
  }

  lemma {:induction false} StaysLeft(s: State, more: seq<Input>)
    requires s.phase.Left?
    ensures After(s, more) == s
    decreases |more|
  {
    if more != [] {
      StaysLeft(s, more[..|more| - 1]);
    }
  }

  // Leaving

  /** Start is past its loop with a full set of reports. */
  ghost predicate LeftLoop(s: State) {
    s.phase.Left? && s.handlerCount > 0
  }

  ghost predicate AllCoreReported(s: State) {
    forall l :: Core(l) in s.handlerErrors
  }

  function CountOf(errors: seq<Source>, source: Source): nat {
    if errors == [] then 0
    else CountOf(errors[..|errors| - 1], source) + (if errors[|errors| - 1] == source then 1 else 0)
  }

  ghost predicate Accounted(s: State, inputs: seq<Input>, tcp: nat) {
    && (forall x :: CountOf(s.handlerErrors, x) <= Reports(inputs, x))
    && (s.handlerCount > 0 ==> s.handlerCount == 4 + tcp)
    && (s.phase.Serving? ==> s.handlerCount > 0)
    && (s.phase.Waiting? || s.phase.Starting? ==> s.handlerCount == 0)
    && (s.phase.Left? && s.handlerCount > 0 ==> |s.handlerErrors| == s.handlerCount)
  }

  lemma {:induction false} AfterAccounted(inputs: seq<Input>, tcp: nat)
    requires forall j :: 0 <= j < |inputs| && inputs[j].ListenersUp? ==> inputs[j].tcp == tcp
    ensures Accounted(After(INITIAL, inputs), inputs, tcp)
  {
    if inputs != [] {
      var init, e := inputs[..|inputs| - 1], inputs[|inputs| - 1];
      AfterAccounted(init, tcp);
      AfterReadyWell(init);
      var s, t := After(INITIAL, init), After(INITIAL, inputs);
      assert t.handlerErrors != s.handlerErrors ==> t.handlerErrors[..|s.handlerErrors|] == s.handlerErrors;
    }
  }

  lemma {:induction false} CountMember(errors: seq<Source>, x: Source)
    ensures CountOf(errors, x) > 0 <==> x in errors
  {
    if errors != [] {
      CountMember(errors[..|errors| - 1], x);
      assert errors == errors[..|errors| - 1] + [errors[|errors| - 1]];
    }
  }

  /** Without TCP reports the errors are counted by the four listeners. */
  lemma {:induction false} CoreCounts(errors: seq<Source>)
    requires forall x :: x in errors ==> x.Core?
    ensures |errors| == CountOf(errors, Core(Https)) + CountOf(errors, Core(Http))
                        + CountOf(errors, Core(Quic)) + CountOf(errors, Core(StatusPage))
  {
    if errors != [] {
      CoreCounts(errors[..|errors| - 1]);
      var last := errors[|errors| - 1];
      assert last in errors;
      assert last.l.Https? || last.l.Http? || last.l.Quic? || last.l.StatusPage?;
    }
  }

  /** With no TCP proxies, Start leaves its loop only after each of the four listeners has reported exactly once. */
  lemma LeavesAfterAllFour(inputs: seq<Input>)
    requires Possible(inputs, 0) && LeftLoop(After(INITIAL, inputs))
    ensures AllCoreReported(After(INITIAL, inputs))
    ensures forall l :: CountOf(After(INITIAL, inputs).handlerErrors, Core(l)) == 1
  {
    var s := After(INITIAL, inputs);
    var errors := s.handlerErrors;
    AfterAccounted(inputs, 0);
    assert forall x: Source :: x.Tcp? ==> Reports(inputs, x) == 0 by {
      assert forall i: nat :: Reports(inputs, Tcp(i)) == 0;
    }
    forall x | x in errors ensures x.Core? {
      CountMember(errors, x);
    }
    CoreCounts(errors);
    assert forall l :: CountOf(errors, Core(l)) <= Reports(inputs, Core(l)) <= 1;
    forall l ensures CountOf(errors, Core(l)) == 1 && Core(l) in errors {
      CountMember(errors, Core(l));
      assert l.Https? || l.Http? || l.Quic? || l.StatusPage?;
    }
  }

  // TCP proxies

  function Script(sources: seq<Source>): seq<Input> {
    if sources == [] then [] else Script(sources[..|sources| - 1]) + [Report(sources[|sources| - 1])]
  }

  lemma {:induction false} AfterScript(s: State, sources: seq<Source>)
    requires s.phase.Serving? && |s.handlerErrors| + |sources| <= s.handlerCount && |s.handlerErrors| < s.handlerCount
    ensures var t := After(s, Script(sources));
            && t.handlerErrors == s.handlerErrors + sources && t.handlerCount == s.handlerCount
            && (t.phase == if |t.handlerErrors| < t.handlerCount then Serving else Left)
    decreases |sources|
  {
    if sources != [] {
      var init, last := sources[..|sources| - 1], sources[|sources| - 1];
      AfterScript(s, init);
      assert Script(sources)[..|Script(sources)| - 1] == Script(init);
      assert s.handlerErrors + sources == (s.handlerErrors + init) + [last];
    }
  }

  lemma {:induction false} ScriptReports(prefix: seq<Input>, sources: seq<Source>, x: Source)
    requires forall e :: e in prefix ==> !e.Report?
    ensures Reports(prefix + Script(sources), x) == CountOf(sources, x)
    decreases |prefix| + |sources|
  {
    if sources != [] {
      var init, last := sources[..|sources| - 1], sources[|sources| - 1];
      ScriptReports(prefix, init, x);
      var all := prefix + Script(sources);
      assert all[..|all| - 1] == prefix + Script(init);
    } else if prefix != [] {
      var all := prefix + Script(sources);
      assert all == prefix;
      ScriptReports(prefix[..|prefix| - 1], [], x);
      assert prefix[..|prefix| - 1] + Script([]) == prefix[..|prefix| - 1];
      assert prefix[|prefix| - 1] in prefix;
    }
  }

  function EachOnce(tcp: nat): (sources: seq<Source>)
    ensures |sources| == tcp && forall x :: x in sources ==> x.Tcp? && x.i < tcp
  {
    if tcp == 0 then [] else EachOnce(tcp - 1) + [Tcp(tcp - 1)]
  }

  const SECOND_ROUND: seq<Source> := [Tcp(0), Core(Http), Core(Quic), Core(StatusPage)]

  /** Every TCP proxy reports once, the first twice, and three of the four listeners once. */
  function EarlyExit(tcp: nat): seq<Input> {
    [Config(0), ListenersUp(tcp)] + Script(EachOnce(tcp) + SECOND_ROUND)
  }

  lemma {:induction false} CountConcat(a: seq<Source>, b: seq<Source>, x: Source)
    ensures CountOf(a + b, x) == CountOf(a, x) + CountOf(b, x)
    decreases |b|
  {
    if b == [] {
      assert a + b == a;
    } else {
      CountConcat(a, b[..|b| - 1], x);
      assert (a + b)[..|a + b| - 1] == a + b[..|b| - 1];
    }
  }

  lemma {:induction false} EachOnceCounts(tcp: nat, x: Source)
    ensures CountOf(EachOnce(tcp), x) <= 1
  {
    if tcp > 0 {
      EachOnceCounts(tcp - 1, x);
      CountMember(EachOnce(tcp - 1), x);
      assert EachOnce(tcp)[..tcp - 1] == EachOnce(tcp - 1);
    }
  }

  lemma SecondRoundCounts(x: Source)
    ensures CountOf(SECOND_ROUND, x) <= 1
    ensures x == Core(Https) || (x.Tcp? && x.i > 0) ==> CountOf(SECOND_ROUND, x) == 0
  {
    var a, b, c, d := Tcp(0), Core(Http), Core(Quic), Core(StatusPage);
    CountConcat([a, b, c], [d], x);
    CountConcat([a, b], [c], x);
    CountConcat([a], [b], x);
    assert [a, b, c] + [d] == SECOND_ROUND && [a, b] + [c] == [a, b, c] && [a] + [b] == [a, b];
    assert forall y :: CountOf([y], x) == if y == x then 1 else 0 by {
      forall y ensures CountOf([y], x) == if y == x then 1 else 0 {
        assert [y][..0] == [];
      }
    }
  }

  /** With a TCP proxy, Start can leave its loop before a listener has reported. */
  lemma TcpLeavesEarly(tcp: nat)
    requires tcp > 0
    ensures Possible(EarlyExit(tcp), tcp)
    ensures LeftLoop(After(INITIAL, EarlyExit(tcp))) && !AllCoreReported(After(INITIAL, EarlyExit(tcp)))
  {
    var prefix, once := [Config(0), ListenersUp(tcp)], EachOnce(tcp);
    var sources := once + SECOND_ROUND;
    var inputs := EarlyExit(tcp);
    forall x
      ensures Reports(inputs, x) == CountOf(sources, x)
      ensures CountOf(sources, x) <= if x.Core? then 1 else 2
      ensures x.Tcp? && x.i >= tcp ==> CountOf(sources, x) == 0
    {
      EachOnceCounts(tcp, x);
      ScriptReports(prefix, sources, x);
      CountConcat(once, SECOND_ROUND, x);
      CountMember(once, x);
      SecondRoundCounts(x);
    }
    ScriptHasNoStart(sources);
    assert forall j :: 2 <= j < |inputs| ==> inputs[j] == Script(sources)[j - 2];
    assert prefix[..1] == [Config(0)] && prefix[..1][..0] == [];
    assert After(INITIAL, prefix[..1]) == Step(INITIAL, Config(0));
    var s := After(INITIAL, prefix);
    assert s.phase.Serving? && s.handlerCount == 4 + tcp && s.handlerErrors == [];
    AfterSplit(INITIAL, prefix, Script(sources));
    AfterScript(s, sources);
    assert Core(Https) !in sources;
  }

  lemma {:induction false} ScriptHasNoStart(sources: seq<Source>)
    ensures forall k :: 0 <= k < |Script(sources)| ==> Script(sources)[k].Report?
  {
    if sources != [] {
      ScriptHasNoStart(sources[..|sources| - 1]);
    }
  }

  /** Start leaves its loop only after all four listeners, on every possible script, exactly when there is no TCP
      proxy: each of those can report more than once. */
  lemma LeavesAfterAllFourExactly(tcp: nat)
    ensures (forall inputs :: Possible(inputs, tcp) && LeftLoop(After(INITIAL, inputs)) ==>
               AllCoreReported(After(INITIAL, inputs)))
       <==> tcp == 0
  {
    if tcp == 0 {
      forall inputs | Possible(inputs, tcp) && LeftLoop(After(INITIAL, inputs))
        ensures AllCoreReported(After(INITIAL, inputs))
      {
        LeavesAfterAllFour(inputs);
      }
    } else {
      TcpLeavesEarly(tcp);
    }
  }
}
