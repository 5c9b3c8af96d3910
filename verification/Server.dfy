/** ServeHTTP with its mutable writer: the methods of context.go, error.go and
    serve.go, proved against Pipeline, and the order of compiled chains. */
module Server {
  import opened Prelude
  import opened Kube
  import opened Routing
  import opened Pipeline
  import Converter
  import Aggregate

  /** ResponseWriter over a writer that records what it receives. */
  class ResponseWriter {
    var writtenStatusCode: int
    var wroteBody: bool
    var received: seq<Event>

    ghost function View(): Writer
      reads this
    {
      Writer(writtenStatusCode, received)
    }

    constructor ()
      ensures View() == UNWRITTEN && !wroteBody
    {
      writtenStatusCode, wroteBody, received := 0, false, [];
    }

    /** The status is remembered before net/http refuses one below 100 by panicking. */
    method WriteHeader(statusCode: int) returns (unwinds: bool)
      modifies this
      ensures unwinds <==> statusCode < 100
      ensures View() == if unwinds then old(View()).(status := statusCode) else Pipeline.WriteHeader(old(View()), statusCode)
    {
      writtenStatusCode := statusCode;
      if statusCode < 100 {
        return true;
      }
      received := received + [Header(statusCode)];
      return false;
    }

    method Write()
      modifies this
      ensures View() == Emit(old(View()), Body) && wroteBody
    {
      wroteBody := true;
      received := received + [Body];
    }

    method Note(e: Event)
      modifies this`received
      ensures View() == Emit(old(View()), e)
    {
      received := received + [e];
    }
  }

  /** What callMiddleware runs after the last middleware. */
  datatype Fallback = ToRouting(conf: Aggregate.ProxyConf) | ToUpstream

  function FallbackOf(env: Env, f: Fallback): Writer -> Out {
    match f
    case ToRouting(conf) => Pipeline.Route(env, conf)
    case ToUpstream => ProxyTo(env)
  }

  /** The continuation of a middleware: the rest of the chain. */
  function Rest(env: Env, rest: seq<Middleware>, f: Fallback): Writer -> Out {
    (x: Writer) => Call(env, rest, x, FallbackOf(env, f))
  }

  /** How a stage returns: with or without an error, or by unwinding. */
  datatype Signal = Returned(failed: bool) | Unwound

  function OutOf(signal: Signal, w: Writer): Out {
    match signal
    case Returned(failed) => Done(w, failed)
    case Unwound => Panicked(w)
  }

  class RequestContext {
    const env: Env
    const w: ResponseWriter

    constructor (env: Env, w: ResponseWriter)
      ensures this.env == env && this.w == w
    {
      this.env, this.w := env, w;
    }

    method HandleErrorPage(status: int) returns (r: Signal)
      requires status >= 100
      modifies w
      ensures OutOf(r, w.View()) == ErrorPage(env, old(w.View()), status)
    {
      var _ := w.WriteHeader(status);
      if env.head {
        return Returned(false);
      }
      w.Write();
      return Returned(!env.pageOk(status));
    }

    method Redirect(status: int) returns (r: Signal)
      requires status >= 100
      modifies w
      ensures OutOf(r, w.View()) == Pipeline.Redirect(old(w.View()), status)
    {
      var _ := w.WriteHeader(status);
      w.Write();
      return Returned(false);
    }

    method HandleUnauthorized(randomOk: bool) returns (r: Signal)
      modifies w
      ensures OutOf(r, w.View()) == Unauthorized(env, old(w.View()), randomOk)
    {
      if (env.get || env.head) && !env.upgrade {
        if !randomOk {
          return Returned(true);
        }
        r := Redirect(302);
      } else {
        r := HandleErrorPage(401);
      }
    }

    method HandleCallback() returns (r: Signal)
      modifies w
      ensures OutOf(r, w.View()) ==
                match env.callback
                case CallbackRejected => ErrorPage(env, old(w.View()), 400)
                case CallbackError => Done(old(w.View()), true)
                case LoggedIn => Pipeline.Redirect(old(w.View()), 302)
    {
      match env.callback
      case CallbackRejected => r := HandleErrorPage(400);
      case CallbackError => return Returned(true);
      case LoggedIn => r := Redirect(302);
    }

    method HandleWebSocket() returns (r: Signal)
      modifies w
      ensures OutOf(r, w.View()) == HandleWebsocket(env, old(w.View()))
    {
      w.Note(WebsocketDial);
      match env.websocket
      case DialError => return Returned(true);
      case Refused(code) =>
        var _ := w.WriteHeader(code);
        w.Write();
        return Returned(true);
      case LostAfterHijack =>
        w.Note(Hijack);
        return Returned(true);
      case Upgraded =>
        w.Note(Hijack);
        return Returned(false);
    }

    /** callMiddleware: the first middleware gets the rest of the chain as its continuation. */
    method CallMiddleware(ms: seq<Middleware>, f: Fallback) returns (r: Signal)
      modifies w
      ensures OutOf(r, w.View()) == Call(env, ms, old(w.View()), FallbackOf(env, f))
      decreases f.ToRouting?, |ms|, 2
    {
      if ms == [] {
        r := RunFallback(f);
        return;
      }
      ApplySame(env, ms[0], w.View(), Rest(env, ms[1..], f), (x: Writer) => Call(env, ms[1..], x, FallbackOf(env, f)));
      r := ApplyMiddleware(ms[0], ms[1..], f);
    }

    /** One middleware makes its own test and answers, or calls the rest of the chain. */
    method ApplyMiddleware(m: Middleware, rest: seq<Middleware>, f: Fallback) returns (r: Signal)
      modifies w
      ensures OutOf(r, w.View()) == Apply(env, m, old(w.View()), Rest(env, rest, f))
      decreases f.ToRouting?, |rest|, 4
    {
      match m
      case HttpsRedirect(_) =>
        if env.tls {
          r := CallMiddleware(rest, f);
        } else {
          r := Redirect(301);
        }
      case OidcCallback(domains) =>
        if IsCallback(env, domains) {
          r := HandleCallback();
        } else {
          r := CallMiddleware(rest, f);
        }
      case DenyPath(pattern) =>
        if env.pathDenied(pattern) {
          r := HandleErrorPage(403);
        } else {
          r := CallMiddleware(rest, f);
        }
      case WebsocketProxy =>
        if env.upgrade {
          r := HandleWebSocket();
        } else {
          r := CallMiddleware(rest, f);
        }
      case ResponseHeaders(_) => r := CallMiddleware(rest, f);
      case UpstreamHeaders(_) => r := CallMiddleware(rest, f);
      case _ => r := Authenticate(m, rest, f);
    }

    /** The four authentication middlewares. */
    method Authenticate(m: Middleware, rest: seq<Middleware>, f: Fallback) returns (r: Signal)
      requires m.IpAllowlist? || m.BasicAuth? || m.ForwardAuth? || m.OidcGuard?
      modifies w
      ensures OutOf(r, w.View()) == Apply(env, m, old(w.View()), Rest(env, rest, f))
      decreases f.ToRouting?, |rest|, 3
    {
      match m
      case IpAllowlist(prefixes) =>
        if env.inAllowlist(prefixes) {
          r := CallMiddleware(rest, f);
        } else {
          r := HandleErrorPage(403);
        }
      case BasicAuth(_, htpasswd) =>
        match env.basic(htpasswd) {
          case NoCredentials => r := HandleErrorPage(401);
          case Mismatch => r := HandleErrorPage(403);
          case Match => r := CallMiddleware(rest, f);
        }
      case ForwardAuth(url, _) =>
        match env.forward(url) {
          case ForwardError => return Returned(true);
          case ForwardStatus(code) =>
            if code == 403 {
              r := HandleErrorPage(403);
            } else if 200 <= code <= 299 {
              r := CallMiddleware(rest, f);
            } else {
              r := Redirect(302);
            }
        }
      case OidcGuard(_, _, _) =>
        match env.session(m) {
          case ExtractError => return Returned(true);
          case NoSession(randomOk) => r := HandleUnauthorized(randomOk);
          case NoAccess => r := HandleErrorPage(403);
          case Session => r := CallMiddleware(rest, f);
        }
    }

    method RunFallback(f: Fallback) returns (r: Signal)
      modifies w
      ensures OutOf(r, w.View()) == FallbackOf(env, f)(old(w.View()))
      decreases f.ToRouting?, 0, 1
    {
      match f
      case ToRouting(conf) => r := HandleHttp(conf);
      case ToUpstream => r := Proxy();
    }

    method Proxy() returns (r: Signal)
      modifies w
      ensures OutOf(r, w.View()) == Pipeline.Proxy(env, old(w.View()))
    {
      w.Note(Contact);
      if !env.connectOk {
        r := HandleErrorPage(502);
        return;
      }
      match env.trip
      case TooLarge =>
        var _ := w.WriteHeader(413);
        return Returned(false);
      case TripError => r := HandleErrorPage(502);
      case Response(code, copyOk) =>
        var unwinds := w.WriteHeader(code);
        if unwinds {
          return Unwound;
        }
        w.Write();
        return Returned(!copyOk);
    }

    method HandleHttp(conf: Aggregate.ProxyConf) returns (r: Signal)
      modifies w
      ensures OutOf(r, w.View()) == Pipeline.HandleHttp(env, conf, old(w.View()))
      decreases true, 0, 0
    {
      if env.asciiHost.None? {
        r := HandleErrorPage(400);
        return;
      }
      match Aggregate.Resolve(conf.hosts, env.asciiHost.value, env.path)
      case None => r := HandleErrorPage(404);
      case Some(Miss) => r := HandleErrorPage(404);
      case Some(Crash) => return Unwound;
      case Some(Hit(route)) =>
        if !env.requestOk {
          r := HandleErrorPage(500);
        } else {
          r := CallMiddleware(route.middlewares, ToUpstream);
        }
    }
  }

  /** ServeHTTP on a fresh writer: the outcome is Pipeline.Serve, so one status is written exactly as
      ExactlyOneStatus says. The snapshot is loaded once and used for the whole request. */
  method ServeHTTP(env: Env, snapshot: Option<Aggregate.ProxyConf>) returns (out: Out)
    ensures out == Serve(env, snapshot)
    ensures out.Done? && !env.upgrade ==> HeaderCount(out.w.events) == 1
  {
    ExactlyOneStatus(env, snapshot);
    var w := new ResponseWriter();
    if snapshot.None? {
      var _ := w.WriteHeader(503);
      return Done(Writer(w.writtenStatusCode, w.received), false);
    }
    var rc := new RequestContext(env, w);
    var r := rc.CallMiddleware(snapshot.value.requestMiddlewares, ToRouting(snapshot.value));
    if r.Returned? && r.failed && w.writtenStatusCode == 0 {
      r := rc.HandleErrorPage(500);
    }
    return OutOf(r, Writer(w.writtenStatusCode, w.received));
  }

  // Compiled chains

  function ModulePosition(m: Converter.Module): nat {
    match m
    case EnforceHttps(_) => 0
    case IpAuth => 1
    case BasicAuthModule => 2
    case SubrequestAuth(_) => 3
    case Oidc(_, _) => 4
    case DenyRoute => 5
    case Websocket => 6
    case CustomHeader => 7
    case UpstreamHeader => 8
  }

  ghost predicate ModulesInOrder(ms: seq<Converter.Module>) {
    forall i, j :: 0 <= i < j < |ms| ==> ModulePosition(ms[i]) < ModulePosition(ms[j])
  }

  /** Dropping uninterested modules keeps the rest in module order, and the websocket module is always interested. */
  lemma {:induction false} ChainInOrder(
    libs: Converter.Libs, c: Cluster, ms: seq<Converter.Module>, out: seq<Middleware>, acc: Converter.IngressConf, ing: Ingress
  )
    requires Converter.Middlewares(libs, c, ms, out, acc, ing).Ok?
    requires ModulesInOrder(ms) && InOrder(out)
    requires forall i, j :: 0 <= i < |out| && 0 <= j < |ms| ==> Position(out[i]) < ModulePosition(ms[j])
    ensures InOrder(Converter.Middlewares(libs, c, ms, out, acc, ing).value.0)
    ensures Converter.Websocket in ms || WebsocketProxy in out ==>
              WebsocketProxy in Converter.Middlewares(libs, c, ms, out, acc, ing).value.0
    decreases |ms|
  {
    if ms != [] {
      var got := Converter.ModuleMiddleware(libs, c, ms[0], acc, ing).value;
      assert got.0.Some? ==> Position(got.0.value) == ModulePosition(ms[0]);
      assert ms[0] == Converter.Websocket ==> got.0 == Some(WebsocketProxy);
      ChainInOrder(libs, c, ms[1..], Converter.Appended(out, got.0), got.1, ing);
    }
  }

  /** Every route that modules in the shipped order compile has a chain in that order, with the websocket stage. */
  lemma {:induction false} DeclaredPathChains(
    libs: Converter.Libs, conf: Converter.ControllerConf, c: Cluster, ing: Ingress, ps: seq<HttpPath>
  )
    requires ModulesInOrder(conf.modules) && Converter.Websocket in conf.modules
    ensures forall r :: r in Converter.DeclaredPaths(libs, conf, c, ing, ps) ==>
              InOrder(r.middlewares) && WebsocketProxy in r.middlewares
    decreases |ps|
  {
    if ps != [] {
      DeclaredPathChains(libs, conf, c, ing, ps[1..]);
      if Converter.Middlewares(libs, c, conf.modules, [], Converter.EMPTY_CONF, ing).Ok? {
        ChainInOrder(libs, c, conf.modules, [], Converter.EMPTY_CONF, ing);
      }
    }
  }

  lemma ShippedInOrder(
    https: bool, auth: map<string, Converter.ForwardAuthConf>, clients: set<string>, domains: map<string, string>
  )
    ensures ModulesInOrder(Converter.ShippedModules(https, auth, clients, domains))
    ensures Converter.Websocket in Converter.ShippedModules(https, auth, clients, domains)
  {
    var ms := Converter.ShippedModules(https, auth, clients, domains);
    assert ms[6] == Converter.Websocket;
    assert forall i :: 0 <= i < |ms| ==> ModulePosition(ms[i]) == i;
  }

  lemma {:induction false} DeclaredChains(
    libs: Converter.Libs, conf: Converter.ControllerConf, c: Cluster, ing: Ingress, rules: seq<Rule>, h: string
  )
    requires ModulesInOrder(conf.modules) && Converter.Websocket in conf.modules
    ensures forall r :: r in Converter.Declared(libs, conf, c, ing, rules, h) ==>
              InOrder(r.middlewares) && WebsocketProxy in r.middlewares
    decreases |rules|
  {
    if rules != [] {
      DeclaredPathChains(libs, conf, c, ing, rules[0].paths);
      DeclaredChains(libs, conf, c, ing, rules[1..], h);
    }
  }

  /** Gate composition end to end: a route declared under the shipped modules reaches its upstream exactly when
      every guard of its ingress passes and the request is no upgrade. */
  lemma DeclaredRouteGates(
    libs: Converter.Libs, conf: Converter.ControllerConf, c: Cluster, ing: Ingress, h: string, r: Route, env: Env
  )
    requires ModulesInOrder(conf.modules) && Converter.Websocket in conf.modules
    requires r in Converter.Declared(libs, conf, c, ing, ing.rules, h) && env.requestOk
    ensures var out := ProxyRoute(env, r, UNWRITTEN);
            && (out.Done? || (BadStatus(env) && Contact in out.w.events))
            && (Contact in out.w.events <==> GuardsPass(env, r.middlewares) && !env.upgrade)
            && (WebsocketDial in out.w.events <==> GuardsPass(env, r.middlewares) && env.upgrade)
  {
    DeclaredChains(libs, conf, c, ing, ing.rules, h);
    RouteGates(env, r.middlewares);
  }
}
