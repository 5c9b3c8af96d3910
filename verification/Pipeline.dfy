/** The request pipeline of pkg/proxy/serve.go: continuation-passing
    middlewares, routing, the upstream call, and the status-tracking writer.
    Every library outcome is an input. */
module Pipeline {
  import opened Prelude
  import opened Kube
  import opened Routing
  import opened Aggregate

  /** What a request does, in order. Header is a WriteHeader call on the underlying writer. */
  datatype Event = Header(status: int) | Body | Contact | WebsocketDial | Hijack

  datatype Writer = Writer(status: int, events: seq<Event>)

  const UNWRITTEN := Writer(0, [])

  /** The final status of an HTTP/1.1 response: three digits, and no informational status but 101, because the client
      consumes those itself. Writing one below 100 panics in net/http. */
  type Status = s: int | 0 <= s < 100 || s == 101 || 200 <= s <= 999 witness 200

  /** What the websocket library answers a handshake it refuses with. */
  type RefusalStatus = s: int | 400 <= s <= 599 witness 400

  datatype BasicOutcome = NoCredentials | Mismatch | Match
  datatype ForwardOutcome = ForwardError | ForwardStatus(code: Status)
  datatype SessionOutcome = ExtractError | NoSession(randomOk: bool) | NoAccess | Session
  datatype CallbackOutcome = CallbackRejected | CallbackError | LoggedIn
  datatype TripOutcome = TooLarge | TripError | Response(code: Status, copyOk: bool)
  datatype UpgradeOutcome = DialError | Refused(code: RefusalStatus) | LostAfterHijack | Upgraded

  /** One request, with the outcome of everything outside this code. */
  datatype Env = Env(
    host: string,
    path: string,
    get: bool,
    head: bool,
    tls: bool,
    upgrade: bool,
    asciiHost: Option<string>,
    inAllowlist: seq<string> -> bool,
    basic: string -> BasicOutcome,
    forward: string -> ForwardOutcome,
    session: Middleware -> SessionOutcome,
    pathDenied: string -> bool,
    callback: CallbackOutcome,
    pageOk: int -> bool,
    requestOk: bool,
    connectOk: bool,
    trip: TripOutcome,
    websocket: UpgradeOutcome)

  /** failed: a Go error is returned to the caller. Panicked: the goroutine unwinds to the HTTP server. */
  datatype Out = Done(w: Writer, failed: bool) | Panicked(w: Writer)

  // Writer (pkg/proxy/context.go) and error pages (pkg/proxy/error.go)

  function WriteHeader(w: Writer, status: int): Writer {
    Writer(status, w.events + [Header(status)])
  }

  function Emit(w: Writer, e: Event): Writer {
    w.(events := w.events + [e])
  }

  function ErrorPage(env: Env, w: Writer, status: int): Out {
    var w1 := WriteHeader(w, status);
    if env.head then Done(w1, false) else Done(Emit(w1, Body), !env.pageOk(status))
  }

  function Redirect(w: Writer, status: int): Out {
    Done(Emit(WriteHeader(w, status), Body), false)
  }

  // Middlewares

  predicate IsCallback(env: Env, domains: map<string, string>) {
    env.host in domains && env.get && env.path == "/_oidc/callback"
  }

  function Unauthorized(env: Env, w: Writer, randomOk: bool): Out {
    if (env.get || env.head) && !env.upgrade then
      if randomOk then Redirect(w, 302) else Done(w, true)
    else ErrorPage(env, w, 401)
  }

  function HandleWebsocket(env: Env, w: Writer): Out {
    var dialed := Emit(w, WebsocketDial);
    match env.websocket
    case DialError => Done(dialed, true)
    case Refused(code) => Done(Emit(WriteHeader(dialed, code), Body), true)
    case LostAfterHijack => Done(Emit(dialed, Hijack), true)
    case Upgraded => Done(Emit(dialed, Hijack), false)
  }

  /** One middleware: it answers itself or calls next, in tail position. */
  function Apply(env: Env, m: Middleware, w: Writer, next: Writer -> Out): Out {
    match m
    case HttpsRedirect(_) => if env.tls then next(w) else Redirect(w, 301)
    case OidcCallback(domains) =>
      if !IsCallback(env, domains) then next(w)
      else
        (match env.callback
         case CallbackRejected => ErrorPage(env, w, 400)
         case CallbackError => Done(w, true)
         case LoggedIn => Redirect(w, 302))
    case IpAllowlist(prefixes) => if env.inAllowlist(prefixes) then next(w) else ErrorPage(env, w, 403)
    case BasicAuth(_, htpasswd) =>
      (match env.basic(htpasswd)
       case NoCredentials => ErrorPage(env, w, 401)
       case Mismatch => ErrorPage(env, w, 403)
       case Match => next(w))
    case ForwardAuth(url, _) =>
      (match env.forward(url)
       case ForwardError => Done(w, true)
       case ForwardStatus(code) =>
         if code == 403 then ErrorPage(env, w, 403)
         else if 200 <= code <= 299 then next(w)
         else Redirect(w, 302))
    case OidcGuard(_, _, _) =>
      (match env.session(m)
       case ExtractError => Done(w, true)
       case NoSession(randomOk) => Unauthorized(env, w, randomOk)
       case NoAccess => ErrorPage(env, w, 403)
       case Session => next(w))
    case DenyPath(pattern) => if env.pathDenied(pattern) then ErrorPage(env, w, 403) else next(w)
    case WebsocketProxy => if env.upgrade then HandleWebsocket(env, w) else next(w)
    case ResponseHeaders(_) => next(w)
    case UpstreamHeaders(_) => next(w)
  }

  /** callMiddleware. */
  function Call(env: Env, ms: seq<Middleware>, w: Writer, fallback: Writer -> Out): Out
    decreases |ms|
  {
    if ms == [] then fallback(w)
    else Apply(env, ms[0], w, (x: Writer) => Call(env, ms[1..], x, fallback))
  }

  // Routing and the upstream

  function Proxy(env: Env, w: Writer): Out {
    var contacted := Emit(w, Contact);
    if !env.connectOk then ErrorPage(env, contacted, 502)
    else
      match env.trip
      case TooLarge => Done(WriteHeader(contacted, 413), false)
      case TripError => ErrorPage(env, contacted, 502)
      case Response(code, copyOk) =>
        if code < 100 then Panicked(contacted.(status := code))
        else Done(Emit(WriteHeader(contacted, code), Body), !copyOk)
  }

  function ProxyTo(env: Env): Writer -> Out {
    (w: Writer) => Proxy(env, w)
  }

  function ProxyRoute(env: Env, route: Route, w: Writer): Out {
    if !env.requestOk then ErrorPage(env, w, 500)
    else Call(env, route.middlewares, w, ProxyTo(env))
  }

  function HandleHttp(env: Env, conf: ProxyConf, w: Writer): Out {
    match env.asciiHost
    case None => ErrorPage(env, w, 400)
    case Some(host) =>
      match Resolve(conf.hosts, host, env.path)
      case None => ErrorPage(env, w, 404)
      case Some(Miss) => ErrorPage(env, w, 404)
      case Some(Crash) => Panicked(w)
      case Some(Hit(route)) => ProxyRoute(env, route, w)
  }

  function Route(env: Env, conf: ProxyConf): Writer -> Out {
    (w: Writer) => HandleHttp(env, conf, w)
  }

  /** An error is answered with 500 only if no status has been written. */
  function Recover(env: Env, out: Out): Out {
    if out.Done? && out.failed && out.w.status == 0 then ErrorPage(env, out.w, 500) else out
  }

  function Serve(env: Env, conf: Option<ProxyConf>): Out {
    match conf
    case None => Done(WriteHeader(UNWRITTEN, 503), false)
    case Some(c) => Recover(env, Call(env, c.requestMiddlewares, UNWRITTEN, Route(env, c)))
  }

  // Exactly one status

  function HeaderCount(es: seq<Event>): nat {
    if es == [] then 0
    else HeaderCount(es[..|es| - 1]) + (if es[|es| - 1].Header? then 1 else 0)
  }

  ghost predicate Unanswered(w: Writer) {
    w.status == 0 && HeaderCount(w.events) == 0 && Hijack !in w.events
  }

  ghost predicate Answered(w: Writer) {
    w.status != 0 && HeaderCount(w.events) == 1 && Hijack !in w.events
  }

  ghost predicate TakenOver(w: Writer) {
    w.status == 0 && HeaderCount(w.events) == 0 && Hijack in w.events
  }

  /** What every stage does with an unanswered writer: answer it once, leave it to the error path, hand the
      connection over to a websocket, or panic. */
  ghost predicate Settled(env: Env, out: Out) {
    match out
    case Done(w, failed) =>
      || Answered(w)
      || (failed && Unanswered(w))
      || (env.upgrade && TakenOver(w) && (failed || env.websocket.Upgraded?))
    case Panicked(w) => HeaderCount(w.events) == 0
  }

  ghost predicate Settles(env: Env, k: Writer -> Out) {
    forall w :: Unanswered(w) ==> Settled(env, k(w))
  }

  lemma CountMore(es: seq<Event>, e: Event)
    ensures HeaderCount(es + [e]) == HeaderCount(es) + (if e.Header? then 1 else 0)
  {
    assert (es + [e])[..|es|] == es;
  }

  lemma ErrorPageAnswers(env: Env, w: Writer, status: int)
    requires Unanswered(w) && status != 0
    ensures ErrorPage(env, w, status).Done? && Answered(ErrorPage(env, w, status).w)
  {
    CountMore(w.events, Header(status));
    CountMore(w.events + [Header(status)], Body);
  }

  lemma RedirectAnswers(w: Writer, status: int)
    requires Unanswered(w) && status != 0
    ensures Redirect(w, status).Done? && Answered(Redirect(w, status).w)
  {
    CountMore(w.events, Header(status));
    CountMore(w.events + [Header(status)], Body);
  }

  /** Dialling and handing over write no header. */
  lemma DialAnswersNothing(w: Writer)
    requires Unanswered(w)
    ensures Unanswered(Emit(w, WebsocketDial))
  {
    CountMore(w.events, WebsocketDial);
  }

  lemma HijackTakesOver(w: Writer)
    requires Unanswered(w)
    ensures TakenOver(Emit(w, Hijack))
  {
    CountMore(w.events, Hijack);
    var es := w.events + [Hijack];
    assert es[|w.events|] == Hijack;
  }

  lemma {:induction false} WebsocketSettles(env: Env, w: Writer)
    requires Unanswered(w) && env.upgrade
    ensures Settled(env, HandleWebsocket(env, w))
  {
    var dialed := Emit(w, WebsocketDial);
    DialAnswersNothing(w);
    match env.websocket
    case DialError =>
    case Refused(code) => RedirectAnswers(dialed, code);
    case LostAfterHijack => HijackTakesOver(dialed);
    case Upgraded => HijackTakesOver(dialed);
  }

  /** All a middleware can do. */
  lemma ApplyShape(env: Env, m: Middleware, w: Writer, next: Writer -> Out)
    ensures var out := Apply(env, m, w, next);
            || out == next(w)
            || out == Done(w, true)
            || out == ErrorPage(env, w, 400) || out == ErrorPage(env, w, 401) || out == ErrorPage(env, w, 403)
            || out == Redirect(w, 301) || out == Redirect(w, 302)
            || (env.upgrade && out == HandleWebsocket(env, w))
  {
  }

  /** A middleware in front of a settling continuation settles. */
  lemma {:induction false} ApplySettles(env: Env, m: Middleware, w: Writer, next: Writer -> Out)
    requires Settles(env, next) && Unanswered(w)
    ensures Settled(env, Apply(env, m, w, next))
  {
    var out := Apply(env, m, w, next);
    ApplyShape(env, m, w, next);
    if env.upgrade && out == HandleWebsocket(env, w) {
      WebsocketSettles(env, w);
    } else if out != next(w) && out != Done(w, true) {
      ErrorPageAnswers(env, w, 400);
      ErrorPageAnswers(env, w, 401);
      ErrorPageAnswers(env, w, 403);
      RedirectAnswers(w, 301);
      RedirectAnswers(w, 302);
      assert out.Done? && Answered(out.w);
    }
  }

  lemma {:induction false} CallSettles(env: Env, ms: seq<Middleware>, fallback: Writer -> Out)
    requires Settles(env, fallback)
    ensures forall w :: Unanswered(w) ==> Settled(env, Call(env, ms, w, fallback))
    decreases |ms|
  {
    if ms != [] {
      CallSettles(env, ms[1..], fallback);
      var next := (x: Writer) => Call(env, ms[1..], x, fallback);
      assert Settles(env, next);
      forall w | Unanswered(w) ensures Settled(env, Call(env, ms, w, fallback)) {
        ApplySettles(env, ms[0], w, next);
      }
    }
  }

  lemma HeaderAnswers(w: Writer, status: int)
    requires Unanswered(w) && status != 0
    ensures Answered(WriteHeader(w, status))
  {
    CountMore(w.events, Header(status));
  }

  lemma ContactAnswersNothing(w: Writer)
    requires Unanswered(w)
    ensures Unanswered(Emit(w, Contact))
  {
    CountMore(w.events, Contact);
  }

  lemma {:induction false} ProxySettles(env: Env)
    ensures Settles(env, ProxyTo(env))
  {
    forall w | Unanswered(w) ensures Settled(env, ProxyTo(env)(w)) {
      ContactAnswersNothing(w);
      UpstreamSettles(env, w);
    }
  }

  lemma {:induction false} UpstreamSettles(env: Env, w: Writer)
    requires Unanswered(Emit(w, Contact))
    ensures Settled(env, Proxy(env, w))
  {
    var contacted := Emit(w, Contact);
    if !env.connectOk || env.trip.TripError? {
      ErrorPageAnswers(env, contacted, 502);
    } else if env.trip.TooLarge? {
      HeaderAnswers(contacted, 413);
    } else if env.trip.code >= 100 {
      RedirectAnswers(contacted, env.trip.code);
    }
  }

  lemma {:induction false} RouteSettles(env: Env, conf: ProxyConf)
    ensures Settles(env, Route(env, conf))
  {
    ProxySettles(env);
    forall w | Unanswered(w) ensures Settled(env, HandleHttp(env, conf, w)) {
      ErrorPageAnswers(env, w, 400);
      ErrorPageAnswers(env, w, 404);
      ErrorPageAnswers(env, w, 500);
      if env.asciiHost.Some? {
        var found := Resolve(conf.hosts, env.asciiHost.value, env.path);
        if found.Some? && found.value.Hit? {
          CallSettles(env, found.value.route.middlewares, ProxyTo(env));
        }
      }
    }
  }

  /** Exactly one status: whatever the configuration, the request and every library outcome, the underlying writer
      accepts exactly one WriteHeader, unless a websocket was upgraded, or the lookup or a status below 100 panicked;
      then it accepts none. */
  lemma {:induction false} ExactlyOneStatus(env: Env, conf: Option<ProxyConf>)
    ensures match Serve(env, conf)
            case Done(w, _) =>
              HeaderCount(w.events) == 1 || (env.upgrade && env.websocket.Upgraded? && HeaderCount(w.events) == 0)
            case Panicked(w) => HeaderCount(w.events) == 0
    ensures Serve(env, conf).Done? && !env.upgrade ==> Answered(Serve(env, conf).w)
  {
    match conf
    case None =>
      CountMore([], Header(503));
    case Some(c) =>
      RouteSettles(env, c);
      CallSettles(env, c.requestMiddlewares, Route(env, c));
      RecoverAnswers(env, Call(env, c.requestMiddlewares, UNWRITTEN, Route(env, c)));
  }

  lemma {:induction false} RecoverAnswers(env: Env, out: Out)
    requires Settled(env, out)
    ensures Recover(env, out).Panicked? ==> HeaderCount(Recover(env, out).w.events) == 0
    ensures Recover(env, out).Done? ==>
              var w := Recover(env, out).w;
              || Answered(w)
              || (env.upgrade && HeaderCount(w.events) == 1)
              || (env.upgrade && env.websocket.Upgraded? && HeaderCount(w.events) == 0)
  {
    if out.Done? && out.failed && out.w.status == 0 {
      if Unanswered(out.w) {
        ErrorPageAnswers(env, out.w, 500);
      } else {
        CountMore(out.w.events, Header(500));
        CountMore(out.w.events + [Header(500)], Body);
      }
    }
  }

  // Gate composition

  lemma ApplySame(env: Env, m: Middleware, w: Writer, a: Writer -> Out, b: Writer -> Out)
    requires forall x :: a(x) == b(x)
    ensures Apply(env, m, w, a) == Apply(env, m, w, b)
  {
  }

  /** Running a concatenated chain is running the first part with the second as its continuation. */
  lemma {:induction false} CallConcat(env: Env, a: seq<Middleware>, b: seq<Middleware>, w: Writer, fallback: Writer -> Out)
    ensures Call(env, a + b, w, fallback) == Call(env, a, w, (x: Writer) => Call(env, b, x, fallback))
    decreases |a|
  {
    if a == [] {
      assert a + b == b;
    } else {
      var rest := (x: Writer) => Call(env, b, x, fallback);
      assert (a + b)[1..] == a[1..] + b && (a + b)[0] == a[0];
      forall x ensures Call(env, (a + b)[1..], x, fallback) == Call(env, a[1..], x, rest) {
        CallConcat(env, a[1..], b, x, fallback);
      }
      ApplySame(env, a[0], w, (x: Writer) => Call(env, (a + b)[1..], x, fallback), (x: Writer) => Call(env, a[1..], x, rest));
    }
  }

  /** Whether m lets the request through to the next stage. */
  predicate Passes(env: Env, m: Middleware) {
    match m
    case HttpsRedirect(_) => env.tls
    case OidcCallback(domains) => !IsCallback(env, domains)
    case IpAllowlist(prefixes) => env.inAllowlist(prefixes)
    case BasicAuth(_, htpasswd) => env.basic(htpasswd).Match?
    case ForwardAuth(url, _) =>
      env.forward(url).ForwardStatus? && env.forward(url).code != 403 && 200 <= env.forward(url).code <= 299
    case OidcGuard(_, _, _) => env.session(m).Session?
    case DenyPath(pattern) => !env.pathDenied(pattern)
    case WebsocketProxy => !env.upgrade
    case ResponseHeaders(_) => true
    case UpstreamHeaders(_) => true
  }

  function Nowhere(): Writer -> Out {
    (w: Writer) => Done(w, true)
  }

  /** The answer m gives by itself when it does not pass. */
  function Reject(env: Env, m: Middleware, w: Writer): Out {
    Apply(env, m, w, Nowhere())
  }

  lemma ApplyGate(env: Env, m: Middleware, w: Writer, next: Writer -> Out)
    ensures Apply(env, m, w, next) == if Passes(env, m) then next(w) else Reject(env, m, w)
  {
  }

  /** The first middleware that does not pass, or the length of the chain. */
  function FirstStop(env: Env, ms: seq<Middleware>): (i: nat)
    ensures i <= |ms|
    ensures forall j :: 0 <= j < i ==> Passes(env, ms[j])
    ensures i < |ms| ==> !Passes(env, ms[i])
  {
    if ms == [] || !Passes(env, ms[0]) then 0 else 1 + FirstStop(env, ms[1..])
  }

  /** A chain is decided by its first middleware that does not pass, alone; the fallback runs, on the untouched
      writer, exactly when all pass. */
  lemma {:induction false} ChainDecided(env: Env, ms: seq<Middleware>, w: Writer, fallback: Writer -> Out)
    ensures var i := FirstStop(env, ms);
            Call(env, ms, w, fallback) == if i == |ms| then fallback(w) else Reject(env, ms[i], w)
    decreases |ms|
  {
    if ms != [] {
      ApplyGate(env, ms[0], w, (x: Writer) => Call(env, ms[1..], x, fallback));
      ChainDecided(env, ms[1..], w, fallback);
    }
  }

  // The shipped order

  /** The position of the module that contributes m to a route (modules/modules.go). */
  function Position(m: Middleware): nat {
    match m
    case HttpsRedirect(_) => 0
    case IpAllowlist(_) => 1
    case BasicAuth(_, _) => 2
    case ForwardAuth(_, _) => 3
    case OidcGuard(_, _, _) => 4
    case OidcCallback(_) => 4
    case DenyPath(_) => 5
    case WebsocketProxy => 6
    case ResponseHeaders(_) => 7
    case UpstreamHeaders(_) => 8
  }

  predicate IsGuard(m: Middleware) {
    Position(m) < 6
  }

  ghost predicate InOrder(ms: seq<Middleware>) {
    forall i, j :: 0 <= i < j < |ms| ==> Position(ms[i]) < Position(ms[j])
  }

  ghost predicate GuardsPass(env: Env, ms: seq<Middleware>) {
    forall i :: 0 <= i < |ms| && IsGuard(ms[i]) ==> Passes(env, ms[i])
  }

  lemma {:induction false} RejectEvents(env: Env, m: Middleware)
    requires !Passes(env, m)
    ensures Reject(env, m, UNWRITTEN).Done?
    ensures Contact !in Reject(env, m, UNWRITTEN).w.events
    ensures WebsocketDial in Reject(env, m, UNWRITTEN).w.events <==> m.WebsocketProxy?
  {
  }

  /** The upstream answers with a status that cannot be written. */
  predicate BadStatus(env: Env) {
    env.trip.Response? && env.trip.code < 100
  }

  /** On a route whose chain follows the shipped order: the upstream is contacted exactly when every guard passes
      and the request is no upgrade, a websocket is dialled exactly when every guard passes and it is one, and
      otherwise the first guard that does not pass gives the whole answer. */
  lemma {:induction false} RouteGates(env: Env, ms: seq<Middleware>)
    requires InOrder(ms) && WebsocketProxy in ms
    ensures var out := Call(env, ms, UNWRITTEN, ProxyTo(env));
            && (out.Done? || (BadStatus(env) && Contact in out.w.events))
            && (Contact in out.w.events <==> GuardsPass(env, ms) && !env.upgrade)
            && (WebsocketDial in out.w.events <==> GuardsPass(env, ms) && env.upgrade)
            && (!GuardsPass(env, ms) ==>
                  exists g :: 0 <= g < |ms| && IsGuard(ms[g]) && !Passes(env, ms[g])
                              && (forall j :: 0 <= j < g ==> Passes(env, ms[j])) && out == Reject(env, ms[g], UNWRITTEN))
  {
    ChainDecided(env, ms, UNWRITTEN, ProxyTo(env));
    var i := FirstStop(env, ms);
    var v :| 0 <= v < |ms| && ms[v] == WebsocketProxy;
    if i == |ms| {
      assert Passes(env, ms[v]);
      ProxyEvents(env);
    } else {
      RejectEvents(env, ms[i]);
      if !IsGuard(ms[i]) {
        assert i == v;
        assert forall j :: 0 <= j < |ms| && IsGuard(ms[j]) ==> j < v;
      }
    }
  }

  lemma ProxyEvents(env: Env)
    ensures var out := Proxy(env, UNWRITTEN);
            (out.Done? || BadStatus(env)) && Contact in out.w.events && WebsocketDial !in out.w.events
  {
  }

  // What the client is answered, event by event

  /** An error page: its status, and a body unless only the head was asked for. */
  function Page(env: Env, status: int): seq<Event> {
    [Header(status)] + (if env.head then [] else [Body])
  }

  function Redirected(status: int): seq<Event> {
    [Header(status), Body]
  }

  lemma PageEvents(env: Env, w: Writer, status: int)
    ensures ErrorPage(env, w, status).w.events == w.events + Page(env, status)
  {
  }

  /** What a request that all guards admit, and that is no upgrade, ends in: 502 when the upstream cannot be reached,
      413 when the body is too large, and otherwise the status of the upstream. */
  lemma {:induction false} UpstreamAnswer(env: Env)
    ensures var out := Recover(env, Proxy(env, UNWRITTEN));
            && (!env.connectOk || env.trip == TripError ==> out.w.events == [Contact] + Page(env, 502))
            && (env.connectOk && env.trip == TooLarge ==> out.w.events == [Contact, Header(413)])
            && (env.connectOk && env.trip.Response? && env.trip.code >= 100 ==>
                  out == Done(Writer(env.trip.code, [Contact, Header(env.trip.code), Body]), !env.trip.copyOk))
            && (env.connectOk && env.trip.Response? && env.trip.code < 100 ==> out.Panicked? && out.w.events == [Contact])
  {
    PageEvents(env, Emit(UNWRITTEN, Contact), 502);
  }

  /** What each guard that does not pass answers, and why it does not pass. A middleware that fails without an answer
      of its own leaves a 500. */
  lemma {:induction false} GuardAnswer(env: Env, m: Middleware)
    requires !Passes(env, m)
    ensures var events := Recover(env, Reject(env, m, UNWRITTEN)).w.events;
            && (m.HttpsRedirect? ==> !env.tls && events == Redirected(301))
            && (m.IpAllowlist? ==> !env.inAllowlist(m.prefixes) && events == Page(env, 403))
            && (m.DenyPath? ==> env.pathDenied(m.pattern) && events == Page(env, 403))
            && !m.ResponseHeaders? && !m.UpstreamHeaders?
  {
    PageEvents(env, UNWRITTEN, 403);
  }

  lemma {:induction false} CredentialsAnswer(env: Env, m: Middleware)
    requires !Passes(env, m)
    ensures var events := Recover(env, Reject(env, m, UNWRITTEN)).w.events;
            && (m.BasicAuth? ==>
                  && (env.basic(m.htpasswd) == NoCredentials ==> events == Page(env, 401))
                  && (env.basic(m.htpasswd) == Mismatch ==> events == Page(env, 403))
                  && env.basic(m.htpasswd) != Match)
            && (m.ForwardAuth? ==>
                  var answer := env.forward(m.authUrl);
                  && (answer == ForwardError ==> events == Page(env, 500))
                  && (answer == ForwardStatus(403) ==> events == Page(env, 403))
                  && (answer.ForwardStatus? && answer.code != 403 ==> !(200 <= answer.code <= 299) && events == Redirected(302)))
  {
    PageEvents(env, UNWRITTEN, 401);
    PageEvents(env, UNWRITTEN, 403);
    PageEvents(env, UNWRITTEN, 500);
  }

  lemma {:induction false} SessionAnswer(env: Env, m: Middleware)
    requires !Passes(env, m) && m.OidcGuard?
    ensures var events := Recover(env, Reject(env, m, UNWRITTEN)).w.events;
            var session := env.session(m);
            && (session == ExtractError ==> events == Page(env, 500))
            && (session == NoAccess ==> events == Page(env, 403))
            && (session.NoSession? && (env.get || env.head) && !env.upgrade ==>
                  events == if session.randomOk then Redirected(302) else Page(env, 500))
            && (session.NoSession? && (env.upgrade || !(env.get || env.head)) ==> events == Page(env, 401))
            && session != Session
  {
    PageEvents(env, UNWRITTEN, 401);
    PageEvents(env, UNWRITTEN, 403);
    PageEvents(env, UNWRITTEN, 500);
  }

  /** The login callback, which only a GET of its path on a callback domain is. */
  lemma {:induction false} CallbackAnswer(env: Env, m: Middleware)
    requires !Passes(env, m) && m.OidcCallback?
    ensures var events := Recover(env, Reject(env, m, UNWRITTEN)).w.events;
            && env.host in m.domains && env.get && env.path == "/_oidc/callback"
            && (env.callback == LoggedIn ==> events == Redirected(302))
            && (env.callback == CallbackRejected ==> events == Page(env, 400))
            && (env.callback == CallbackError ==> events == Page(env, 500))
  {
    PageEvents(env, UNWRITTEN, 400);
    PageEvents(env, UNWRITTEN, 500);
  }

  /** An upgrade that all guards admit. */
  lemma {:induction false} UpgradeAnswer(env: Env, m: Middleware)
    requires !Passes(env, m) && m.WebsocketProxy?
    ensures var events := Recover(env, Reject(env, m, UNWRITTEN)).w.events;
            && env.upgrade
            && (env.websocket == DialError ==> events == [WebsocketDial] + Page(env, 500))
            && (env.websocket.Refused? ==> events == [WebsocketDial, Header(env.websocket.code), Body])
            && (env.websocket == LostAfterHijack ==> events == [WebsocketDial, Hijack] + Page(env, 500))
            && (env.websocket == Upgraded ==> events == [WebsocketDial, Hijack])
  {
    PageEvents(env, Emit(UNWRITTEN, WebsocketDial), 500);
    PageEvents(env, Emit(Emit(UNWRITTEN, WebsocketDial), Hijack), 500);
  }

  /** The middleware lets the request through, by its own outcome. */
  ghost predicate Admits(env: Env, m: Middleware) {
    && (m.HttpsRedirect? ==> env.tls)
    && (m.OidcCallback? ==> !(env.host in m.domains && env.get && env.path == "/_oidc/callback"))
    && (m.IpAllowlist? ==> env.inAllowlist(m.prefixes))
    && (m.BasicAuth? ==> env.basic(m.htpasswd) == Match)
    && (m.ForwardAuth? ==> env.forward(m.authUrl).ForwardStatus? && 200 <= env.forward(m.authUrl).code <= 299)
    && (m.OidcGuard? ==> env.session(m) == Session)
    && (m.DenyPath? ==> !env.pathDenied(m.pattern))
    && (m.WebsocketProxy? ==> !env.upgrade)
  }

  ghost predicate AllAdmit(env: Env, ms: seq<Middleware>) {
    forall m :: m in ms ==> Admits(env, m)
  }

  lemma AdmitsIsPasses(env: Env, m: Middleware)
    ensures Admits(env, m) <==> Passes(env, m)
  {
  }

  /** No middleware of a chain stops the request exactly when each admits it by its own outcome. */
  lemma AdmittedExactly(env: Env, ms: seq<Middleware>)
    ensures AllAdmit(env, ms) <==> FirstStop(env, ms) == |ms|
  {
    forall m ensures Admits(env, m) <==> Passes(env, m) {
      AdmitsIsPasses(env, m);
    }
    assert forall i :: 0 <= i < |ms| ==> ms[i] in ms;
  }

  /** A request on a resolved route that everything admits: the client gets what the upstream answers. */
  lemma ServedByUpstream(env: Env, conf: ProxyConf, r: Kube.Route)
    requires env.asciiHost.Some? && Resolve(conf.hosts, env.asciiHost.value, env.path) == Some(Hit(r))
    requires AllAdmit(env, conf.requestMiddlewares) && env.requestOk && AllAdmit(env, r.middlewares)
    ensures Serve(env, Some(conf)) == Recover(env, Proxy(env, UNWRITTEN))
  {
    AdmittedExactly(env, conf.requestMiddlewares);
    AdmittedExactly(env, r.middlewares);
    ChainDecided(env, conf.requestMiddlewares, UNWRITTEN, Route(env, conf));
    ChainDecided(env, r.middlewares, UNWRITTEN, ProxyTo(env));
  }

  /** A request that the middlewares in front of all routes stop: the first that does not pass gives the answer. */
  lemma ServedAtEntry(env: Env, conf: ProxyConf)
    requires !AllAdmit(env, conf.requestMiddlewares)
    ensures var ms := conf.requestMiddlewares;
            var i := FirstStop(env, ms);
            && i < |ms| && !Passes(env, ms[i]) && AllAdmit(env, ms[..i])
            && Serve(env, Some(conf)) == Recover(env, Reject(env, ms[i], UNWRITTEN))
  {
    var ms := conf.requestMiddlewares;
    AdmittedExactly(env, ms);
    ChainDecided(env, ms, UNWRITTEN, Route(env, conf));
    FirstStopPrefix(env, ms, FirstStop(env, ms));
    AdmittedExactly(env, ms[..FirstStop(env, ms)]);
  }

  /** A resolved route whose chain stops the request: its first middleware that does not pass gives the answer. */
  lemma ServedByGuard(env: Env, conf: ProxyConf, r: Kube.Route)
    requires env.asciiHost.Some? && Resolve(conf.hosts, env.asciiHost.value, env.path) == Some(Hit(r))
    requires AllAdmit(env, conf.requestMiddlewares) && env.requestOk && !AllAdmit(env, r.middlewares)
    ensures var i := FirstStop(env, r.middlewares);
            && i < |r.middlewares| && !Passes(env, r.middlewares[i]) && AllAdmit(env, r.middlewares[..i])
            && Serve(env, Some(conf)) == Recover(env, Reject(env, r.middlewares[i], UNWRITTEN))
  {
    var ms := r.middlewares;
    AdmittedExactly(env, conf.requestMiddlewares);
    AdmittedExactly(env, ms);
    ChainDecided(env, conf.requestMiddlewares, UNWRITTEN, Route(env, conf));
    ChainDecided(env, ms, UNWRITTEN, ProxyTo(env));
    FirstStopPrefix(env, ms, FirstStop(env, ms));
    AdmittedExactly(env, ms[..FirstStop(env, ms)]);
  }

  lemma FirstStopPrefix(env: Env, ms: seq<Middleware>, i: nat)
    requires i <= |ms| && forall j :: 0 <= j < i ==> Passes(env, ms[j])
    ensures FirstStop(env, ms[..i]) == i
  {
  }

  /** Requests that reach no route: no configuration, a host that is no name, no host, no path, or no request to
      forward. */
  lemma ServedWithoutRoute(env: Env, conf: ProxyConf)
    ensures Serve(env, None).w.events == [Header(503)]
    ensures AllAdmit(env, conf.requestMiddlewares) && env.asciiHost.None? ==>
              Serve(env, Some(conf)).w.events == Page(env, 400)
    ensures AllAdmit(env, conf.requestMiddlewares) && env.asciiHost.Some? ==>
              var found := Resolve(conf.hosts, env.asciiHost.value, env.path);
              && (found == None || found == Some(Miss) ==> Serve(env, Some(conf)).w.events == Page(env, 404))
              && (found == Some(Crash) ==> Serve(env, Some(conf)) == Panicked(UNWRITTEN))
              && (found.Some? && found.value.Hit? && !env.requestOk ==> Serve(env, Some(conf)).w.events == Page(env, 500))
  {
    AdmittedExactly(env, conf.requestMiddlewares);
    ChainDecided(env, conf.requestMiddlewares, UNWRITTEN, Route(env, conf));
    PageEvents(env, UNWRITTEN, 400);
    PageEvents(env, UNWRITTEN, 404);
    PageEvents(env, UNWRITTEN, 500);
  }
}
