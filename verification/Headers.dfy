/** Response headers: setResponseHeaders of pkg/proxy/serve.go over maps that
    are walked in any order. Keys are canonical. */
module Headers {
  import opened Prelude

  type Header = map<string, seq<string>>

  const KEEP_ALIVE := "Keep-Alive"
  const REQUEST_ID := "X-Request-Id"
  const ALT_SVC := "Alt-Svc"
  const SET_COOKIE := "Set-Cookie"
  const H3 := "h3=\":443\"; ma=2592000"

  function Values(h: Header, k: string): seq<string> {
    if k in h then h[k] else []
  }

  function Get(h: Header, k: string): string {
    var vs := Values(h, k);
    if vs == [] then "" else vs[0]
  }

  /** The cookies that serialise to something, in order. */
  function Written(cookies: seq<string>): seq<string> {
    Select((c: string) => c != "", cookies)
  }

  /** A header that is present with these values; one without values is absent. */
  function Present(values: seq<string>): Option<seq<string>> {
    if values == [] then None else Some(values)
  }

  /** What the response carries under k, before cookies: the middlewares' value if they set one, else all upstream
      values in order (but no Keep-Alive), else the proxy's own. */
  function Base(own: Header, id: string, upstream: Header, middleware: Header, k: string): Option<seq<string>> {
    if k in middleware then Some([Get(middleware, k)])
    else if k in upstream && k != KEEP_ALIVE then Present(upstream[k])
    else Own(own, id, k)
  }

  function Own(own: Header, id: string, k: string): Option<seq<string>> {
    if k == REQUEST_ID then Some([id])
    else if k == ALT_SVC then Some([H3])
    else Lookup(own, k)
  }

  function WithCookies(base: Option<seq<string>>, cookies: seq<string>): Option<seq<string>> {
    if cookies == [] then base
    else Some((if base.None? then [] else base.value) + cookies)
  }

  /** Middleware cookies come last under Set-Cookie. */
  function Final(
    own: Header, id: string, upstream: Header, middleware: Header, cookies: seq<string>, k: string
  ): Option<seq<string>> {
    var base := Base(own, id, upstream, middleware, k);
    if k == SET_COOKIE then WithCookies(base, Written(cookies)) else base
  }

  /** The header part of RequestContext: the writer's header map and what middlewares asked for. */
  class ResponseHeaders {
    var header: Header
    const responseHeader: Header
    const responseCookies: seq<string>
    const requestId: string

    constructor (requestId: string, responseHeader: Header, responseCookies: seq<string>)
      ensures header == map[] && this.requestId == requestId
      ensures this.responseHeader == responseHeader && this.responseCookies == responseCookies
    {
      header, this.responseHeader, this.responseCookies, this.requestId := map[], responseHeader, responseCookies, requestId;
    }

    method Set(k: string, v: string)
      modifies this`header
      ensures header == old(header)[k := [v]]
    {
      header := header[k := [v]];
    }

    method Add(k: string, v: string)
      modifies this`header
      ensures header == old(header)[k := Values(old(header), k) + [v]]
    {
      header := header[k := Values(header, k) + [v]];
    }

    /** Del, then Add for every value. */
    method Replace(k: string, values: seq<string>)
      modifies this`header
      ensures Lookup(header, k) == Present(values)
      ensures forall j :: j != k ==> Lookup(header, j) == Lookup(old(header), j)
    {
      header := header - {k};
      for i := 0 to |values|
        invariant Lookup(header, k) == Present(values[..i])
        invariant forall j :: j != k ==> Lookup(header, j) == Lookup(old(header), j)
      {
        assert Values(header, k) == values[..i];
        Add(k, values[i]);
        assert values[..i + 1] == values[..i] + [values[i]];
      }
      assert values[..|values|] == values;
    }

    /** The upstream loop, in any order of the upstream map. */
    method CopyUpstream(upstream: Header)
      modifies this`header
      ensures forall k :: Lookup(header, k) ==
                          if k in upstream && k != KEEP_ALIVE then Present(upstream[k]) else Lookup(old(header), k)
    {
      var todo := upstream.Keys;
      while todo != {}
        invariant todo <= upstream.Keys
        invariant forall k :: Lookup(header, k) ==
                              if k in upstream && k !in todo && k != KEEP_ALIVE then Present(upstream[k]) else Lookup(old(header), k)
        decreases todo
      {
        var k :| k in todo;
        todo := todo - {k};
        if k == KEEP_ALIVE {
          continue;
        }
        Replace(k, upstream[k]);
      }
    }

    /** The middleware loop, in any order of the middleware map. */
    method ApplyMiddleware()
      modifies this`header
      ensures forall k :: Lookup(header, k) ==
                          if k in responseHeader then Some([Get(responseHeader, k)]) else Lookup(old(header), k)
    {
      var todo := responseHeader.Keys;
      while todo != {}
        invariant todo <= responseHeader.Keys
        invariant forall k :: Lookup(header, k) ==
                              if k in responseHeader && k !in todo then Some([Get(responseHeader, k)]) else Lookup(old(header), k)
        decreases todo
      {
        var k :| k in todo;
        todo := todo - {k};
        Set(k, Get(responseHeader, k));
      }
    }

    method AddCookies()
      modifies this`header
      ensures Lookup(header, SET_COOKIE) == WithCookies(Lookup(old(header), SET_COOKIE), Written(responseCookies))
      ensures forall k :: k != SET_COOKIE ==> Lookup(header, k) == Lookup(old(header), k)
    {
      ghost var before := Lookup(header, SET_COOKIE);
      for i := 0 to |responseCookies|
        invariant Lookup(header, SET_COOKIE) == WithCookies(before, Written(responseCookies[..i]))
        invariant forall k :: k != SET_COOKIE ==> Lookup(header, k) == Lookup(old(header), k)
      {
        var v := responseCookies[i];
        OneMoreCookie(before, responseCookies, i);
        if v != "" {
          assert Some(Values(header, SET_COOKIE)) == Some(ValuesOf(Lookup(header, SET_COOKIE)));
          Add(SET_COOKIE, v);
        }
      }
      assert responseCookies[..|responseCookies|] == responseCookies;
    }

    /** Whatever order the two header maps are walked in, every final header is the same. */
    method SetResponseHeaders(upstream: Header)
      modifies this`header
      ensures forall k :: Lookup(header, k) ==
                          Final(old(header), requestId, upstream, responseHeader, responseCookies, k)
      ensures forall k :: k in responseHeader && k != "Set-Cookie" ==>
                Lookup(header, k) == Some([if responseHeader[k] == [] then "" else responseHeader[k][0]])
      ensures forall k :: k !in responseHeader && k in upstream && k != "Keep-Alive" && k != "Set-Cookie" ==>
                Lookup(header, k) == if upstream[k] == [] then None else Some(upstream[k])
      ensures "Keep-Alive" !in responseHeader ==> Lookup(header, "Keep-Alive") == Lookup(old(header), "Keep-Alive")
      ensures "X-Request-Id" !in responseHeader && "X-Request-Id" !in upstream ==> Lookup(header, "X-Request-Id") == Some([requestId])
      ensures "Alt-Svc" !in responseHeader && "Alt-Svc" !in upstream ==> Lookup(header, "Alt-Svc") == Some(["h3=\":443\"; ma=2592000"])
      ensures forall k :: k !in responseHeader && k !in upstream && k !in {"X-Request-Id", "Alt-Svc", "Set-Cookie"} ==>
                Lookup(header, k) == Lookup(old(header), k)
      ensures "Set-Cookie" !in responseHeader ==>
                Values(header, "Set-Cookie")
                == (if "Set-Cookie" in upstream then upstream["Set-Cookie"] else Values(old(header), "Set-Cookie"))
                   + Select((c: string) => c != "", responseCookies)
    {
      SetOwn();
      CopyUpstream(upstream);
      ApplyMiddleware();
      AddCookies();
    }

    /** The two headers the proxy itself sets. */
    method SetOwn()
      modifies this`header
      ensures forall k :: Lookup(header, k) == Own(old(header), requestId, k)
    {
      Set(REQUEST_ID, requestId);
      Set(ALT_SVC, H3);
    }
  }

  function ValuesOf(o: Option<seq<string>>): seq<string> {
    if o.None? then [] else o.value
  }

  lemma WrittenMore(cookies: seq<string>, v: string)
    ensures Written(cookies + [v]) == Written(cookies) + (if v != "" then [v] else [])
  {
    var p := (c: string) => c != "";
    SelectConcat(p, cookies, [v]);
    assert Select(p, [v]) == (if v != "" then [v] else []);
  }

  lemma OneMoreCookie(before: Option<seq<string>>, cookies: seq<string>, i: nat)
    requires i < |cookies|
    ensures WithCookies(before, Written(cookies[..i + 1]))
         == if cookies[i] == "" then WithCookies(before, Written(cookies[..i]))
            else Some(ValuesOf(WithCookies(before, Written(cookies[..i]))) + [cookies[i]])
  {
    var some, v := Written(cookies[..i]), cookies[i];
    TakeMore(cookies, i);
    WrittenMore(cookies[..i], v);
    CookieAppended(before, some, v);
    assert v == "" ==> some + [] == some;
  }

  lemma TakeMore<T>(s: seq<T>, i: nat)
    requires i < |s|
    ensures s[..i + 1] == s[..i] + [s[i]]
  {
  }

  lemma CookieAppended(before: Option<seq<string>>, some: seq<string>, v: string)
    ensures WithCookies(before, some + [v]) == Some(ValuesOf(WithCookies(before, some)) + [v])
  {
    Associative(ValuesOf(before), some, [v]);
    assert some == [] ==> some + [v] == [v];
  }
}
