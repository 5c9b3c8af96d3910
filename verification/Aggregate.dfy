/** getProxyConfig: merging the compiled ingresses into one routing
    configuration, in whatever order the state map is walked. */
module Aggregate {
  import opened Prelude
  import opened Kube
  import opened Routing
  import opened Converter
  import opened State
  import Hosts

  datatype ProxyConf = ProxyConf(
    hosts: map<string, seq<Route>>,
    certs: map<string, Certificate>,
    defaultTls: Option<Certificate>,
    tcp: seq<TcpProxy>,
    requestMiddlewares: seq<Middleware>,
    trustedProxies: seq<string>,
    errorPage: Option<string>)

  // Request middlewares

  /** RequestMiddleware of one module. No shipped module returns an error here. */
  function RequestMiddleware(m: Module): Result<Option<Middleware>> {
    match m
    case EnforceHttps(byDefault) => Ok(if byDefault then Some(HttpsRedirect(true)) else None)
    case Oidc(_, domains) => Ok(Some(OidcCallback(domains)))
    case _ => Ok(None)
  }

  function ConnectionModules(ms: seq<Module>, out: seq<Middleware>): Result<seq<Middleware>> {
    if ms == [] then Ok(out)
    else
      var o :- RequestMiddleware(ms[0]);
      ConnectionModules(ms[1..], Appended(out, o))
  }

  // Merging

  function MergeHosts(a: map<string, seq<Route>>, b: map<string, seq<Route>>): map<string, seq<Route>> {
    map h | h in a.Keys + b.Keys && (h in a || b[h] != []) :: InsertAll(RoutesOf(a, h), RoutesOf(b, h))
  }

  /** A certificate already present stays. */
  function MergeCerts(a: map<string, Certificate>, b: map<string, Certificate>): map<string, Certificate> {
    map h | h in a.Keys + b.Keys :: if h in a then a[h] else b[h]
  }

  predicate Configured(entries: map<Name, Entry>, n: Name) {
    n in entries && entries[n].conf.Some?
  }

  function ConfOf(entries: map<Name, Entry>, n: Name): IngressConf {
    if Configured(entries, n) then entries[n].conf.value else EMPTY_CONF
  }

  function MergedHosts(entries: map<Name, Entry>, order: seq<Name>): map<string, seq<Route>> {
    if order == [] then map[]
    else MergeHosts(MergedHosts(entries, order[..|order| - 1]), ConfOf(entries, order[|order| - 1]).hosts)
  }

  function MergedCerts(entries: map<Name, Entry>, order: seq<Name>): map<string, Certificate> {
    if order == [] then map[]
    else MergeCerts(MergedCerts(entries, order[..|order| - 1]), ConfOf(entries, order[|order| - 1]).certs)
  }

  lemma MergedOneMore(entries: map<Name, Entry>, order: seq<Name>, n: Name)
    ensures MergedHosts(entries, order + [n])
         == MergeHosts(MergedHosts(entries, order), ConfOf(entries, n).hosts)
    ensures MergedCerts(entries, order + [n])
         == MergeCerts(MergedCerts(entries, order), ConfOf(entries, n).certs)
  {
    assert (order + [n])[..|order|] == order;
  }

  /** The configuration computed when the configured entries are visited in this order; None is the nil
      configuration of a failed request-middleware setup. */
  function Assemble(s: Ctl, order: seq<Name>): Option<ProxyConf>
    requires s.config.Some?
  {
    match ConnectionModules(s.config.value.modules, [])
    case Err => None
    case Ok(ms) =>
      Some(ProxyConf(MergedHosts(s.entries, order), MergedCerts(s.entries, order), s.defaultTls, s.tcp, ms,
                     s.config.value.trustedProxies, s.config.value.errorPage))
  }

  /** order visits every configured entry once. */
  ghost predicate IsOrder(entries: map<Name, Entry>, order: seq<Name>) {
    && (forall n :: n in order <==> Configured(entries, n))
    && (forall i, j :: 0 <= i < j < |order| ==> order[i] != order[j])
  }

  /** conf is what some walk over the state computes. */
  ghost predicate IsAggregate(conf: Option<ProxyConf>, s: Ctl) {
    s.config.Some? && exists order :: IsOrder(s.entries, order) && conf == Assemble(s, order)
  }

  lemma {:induction false} ConnectionModulesSucceed(ms: seq<Module>, out: seq<Middleware>)
    ensures ConnectionModules(ms, out).Ok?
    decreases |ms|
  {
    if ms != [] {
      ConnectionModulesSucceed(ms[1..], Appended(out, RequestMiddleware(ms[0]).value));
    }
  }

  /** With the shipped modules no aggregate is the nil configuration. */
  lemma AggregateIsNotNil(conf: Option<ProxyConf>, s: Ctl)
    requires IsAggregate(conf, s)
    ensures conf.Some?
  {
    ConnectionModulesSucceed(s.config.value.modules, []);
  }

  // One host of the merge

  function HostRoutes(entries: map<Name, Entry>, order: seq<Name>, h: string): seq<Route> {
    if order == [] then []
    else InsertAll(HostRoutes(entries, order[..|order| - 1], h), RoutesOf(ConfOf(entries, order[|order| - 1]).hosts, h))
  }

  lemma {:induction false} MergedHost(entries: map<Name, Entry>, order: seq<Name>, h: string)
    ensures RoutesOf(MergedHosts(entries, order), h) == HostRoutes(entries, order, h)
    ensures h in MergedHosts(entries, order) ==> HostRoutes(entries, order, h) != []
    decreases |order|
  {
    if order != [] {
      var init, b := order[..|order| - 1], ConfOf(entries, order[|order| - 1]).hosts;
      MergedHost(entries, init, h);
      var a := MergedHosts(entries, init);
      if h !in a && (h !in b || b[h] == []) {
        assert InsertAll(RoutesOf(a, h), RoutesOf(b, h)) == [];
      } else {
        InsertAllPermutes(RoutesOf(a, h), RoutesOf(b, h));
        assert |multiset(InsertAll(RoutesOf(a, h), RoutesOf(b, h)))| > 0;
      }
    }
  }

  /** What the ingresses declare for one host, by ingress. */
  type Declarations = map<Name, seq<Route>>

  /** Every listed ingress was compiled from its declarations for host h, and its routes name it. */
  ghost predicate CompiledFrom(entries: map<Name, Entry>, order: seq<Name>, h: string, decl: Declarations) {
    forall n :: n in order ==>
      && n in decl
      && RoutesOf(ConfOf(entries, n).hosts, h) == InsertAll([], decl[n])
      && forall r :: r in decl[n] ==> r.ingress == n
  }

  ghost predicate Covered(order: seq<Name>, decl: Declarations) {
    forall n :: n in order ==> n in decl
  }

  /** All declarations, later-visited ingresses first, each in its own declaration order. */
  ghost function Flat(order: seq<Name>, decl: Declarations): seq<Route>
    requires Covered(order, decl)
  {
    if order == [] then []
    else decl[order[|order| - 1]] + Flat(order[..|order| - 1], decl)
  }

  /** The rebuilt host list is the stable sort of the declarations: ties keep declaration order within an
      ingress, and a later-visited ingress goes ahead of an earlier one. */
  lemma {:induction false} MergeIsStableSort(entries: map<Name, Entry>, order: seq<Name>, h: string, decl: Declarations)
    requires CompiledFrom(entries, order, h, decl)
    ensures IsStableSort(HostRoutes(entries, order, h), Flat(order, decl))
    decreases |order|
  {
    if order != [] {
      var init, last := order[..|order| - 1], order[|order| - 1];
      MergeIsStableSort(entries, init, h, decl);
      MergeStep(HostRoutes(entries, init, h), Flat(init, decl), decl[last]);
    }
  }

  lemma MergeStep(before: seq<Route>, rest: seq<Route>, own: seq<Route>)
    requires IsStableSort(before, rest)
    ensures IsStableSort(InsertAll(before, InsertAll([], own)), own + rest)
  {
    var list := InsertAll([], own);
    InsertAllKeepsSorted(before, list);
    forall k ensures Select(HasRank(k), InsertAll(before, list)) == Select(HasRank(k), own + rest) {
      var p := HasRank(k);
      calc {
        Select(p, InsertAll(before, list));
        { InsertAllSelect(before, list, k); }
        Backwards(Select(p, list)) + Select(p, before);
        { InsertAllSelect([], own, k); assert Select(p, list) == Backwards(Select(p, own)); }
        Backwards(Backwards(Select(p, own))) + Select(p, rest);
        { BackwardsTwice(Select(p, own)); }
        Select(p, own) + Select(p, rest);
        { SelectConcat(p, own, rest); }
        Select(p, own + rest);
      }
    }
  }

  // Who wins a lookup

  ghost predicate BestRank(order: seq<Name>, decl: Declarations, raw: string, k: Rank)
    requires Covered(order, decl)
  {
    forall n, r :: n in order && r in decl[n] && Stops(r, raw) ==> AtLeast(k, RankOf(r))
  }

  /** n declares a route of the best rank that stops the lookup. */
  ghost predicate Owns(order: seq<Name>, decl: Declarations, raw: string, n: Name)
    requires Covered(order, decl)
  {
    n in order && exists r :: r in decl[n] && Stops(r, raw) && BestRank(order, decl, raw, RankOf(r))
  }

  /** The lookup outcome names the latest-visited owner and the first of its best declarations. */
  ghost predicate WinsAt(order: seq<Name>, decl: Declarations, raw: string, p: int, i: int)
    requires Covered(order, decl)
  {
    && 0 <= p < |order|
    && IsEarliestBest(decl[order[p]], raw, i)
    && BestRank(order, decl, raw, RankOf(decl[order[p]][i]))
    && forall q :: p < q < |order| ==> !Owns(order, decl, raw, order[q])
  }

  lemma {:induction false} FlatMembers(order: seq<Name>, decl: Declarations)
    requires Covered(order, decl)
    ensures forall r :: r in Flat(order, decl) <==> exists n :: n in order && r in decl[n]
  {
    if order != [] {
      var init, last := order[..|order| - 1], order[|order| - 1];
      FlatMembers(init, decl);
      assert forall n :: n in order <==> n in init || n == last;
    }
  }

  /** No route of rs that stops the lookup has rank k. */
  ghost predicate RankAbsent(rs: seq<Route>, raw: string, k: Rank) {
    forall j :: 0 <= j < |rs| && Stops(rs[j], raw) ==> RankOf(rs[j]) != k
  }

  lemma EarliestInFirst(own: seq<Route>, rest: seq<Route>, raw: string, x: int)
    requires IsEarliestBest(own + rest, raw, x) && x < |own|
    ensures IsEarliestBest(own, raw, x)
  {
    assert forall j :: 0 <= j < |own| ==> own[j] == (own + rest)[j];
  }

  lemma EarliestInSecond(own: seq<Route>, rest: seq<Route>, raw: string, x: int)
    requires IsEarliestBest(own + rest, raw, x) && x >= |own|
    ensures IsEarliestBest(rest, raw, x - |own|) && RankAbsent(own, raw, RankOf(rest[x - |own|]))
  {
    assert forall j :: 0 <= j < |own| ==> own[j] == (own + rest)[j];
    assert forall j :: 0 <= j < |rest| ==> rest[j] == (own + rest)[|own| + j];
  }

  /** Locates an earliest best route of Flat in the declaration it comes from. */
  lemma {:induction false} FlatOwner(order: seq<Name>, decl: Declarations, raw: string, x: int) returns (p: int, i: int)
    requires Covered(order, decl)
    requires IsEarliestBest(Flat(order, decl), raw, x)
    ensures 0 <= p < |order| && IsEarliestBest(decl[order[p]], raw, i)
    ensures decl[order[p]][i] == Flat(order, decl)[x]
    ensures forall q :: p < q < |order| ==> RankAbsent(decl[order[q]], raw, RankOf(decl[order[p]][i]))
    decreases |order|
  {
    var init, last := order[..|order| - 1], order[|order| - 1];
    var own, rest := decl[last], Flat(init, decl);
    if x < |own| {
      p, i := |order| - 1, x;
      EarliestInFirst(own, rest, raw, x);
    } else {
      EarliestInSecond(own, rest, raw, x);
      p, i := FlatOwner(init, decl, raw, x - |own|);
    }
  }

  lemma FlatWinner(order: seq<Name>, decl: Declarations, raw: string, x: int) returns (p: int, i: int)
    requires Covered(order, decl)
    requires IsEarliestBest(Flat(order, decl), raw, x)
    ensures WinsAt(order, decl, raw, p, i) && decl[order[p]][i] == Flat(order, decl)[x]
  {
    p, i := FlatOwner(order, decl, raw, x);
    var flat, best := Flat(order, decl), decl[order[p]][i];
    FlatMembers(order, decl);
    forall n, r | n in order && r in decl[n] && Stops(r, raw) ensures AtLeast(RankOf(best), RankOf(r)) {
      assert r in flat;
    }
    forall q | p < q < |order| ensures !Owns(order, decl, raw, order[q]) {
      AbsentOwnsNothing(order, decl, raw, p, i, q);
    }
  }

  lemma AbsentOwnsNothing(order: seq<Name>, decl: Declarations, raw: string, p: int, i: int, q: int)
    requires Covered(order, decl) && 0 <= p < q < |order| && IsEarliestBest(decl[order[p]], raw, i)
    requires BestRank(order, decl, raw, RankOf(decl[order[p]][i]))
    requires RankAbsent(decl[order[q]], raw, RankOf(decl[order[p]][i]))
    ensures !Owns(order, decl, raw, order[q])
  {
    var best := decl[order[p]][i];
    forall r | r in decl[order[q]] && Stops(r, raw) ensures !BestRank(order, decl, raw, RankOf(r)) {
      var j :| 0 <= j < |decl[order[q]]| && decl[order[q]][j] == r;
      assert order[p] in order && best in decl[order[p]] && order[q] in order;
      assert RankOf(r) != RankOf(best) && AtLeast(RankOf(best), RankOf(r));
    }
  }

  /** Routing through an aggregate: the latest-visited owner of a best match wins with its first such
      declaration; nothing matches exactly when nothing declared matches. */
  lemma LookupWinner(entries: map<Name, Entry>, order: seq<Name>, h: string, decl: Declarations, raw: string)
    returns (p: int, i: int)
    requires CompiledFrom(entries, order, h, decl)
    ensures p == -1 ==> && FirstMatch(HostRoutes(entries, order, h), raw) == Miss
                        && (forall n, r :: n in order && r in decl[n] ==> !Stops(r, raw))
    ensures p != -1 ==> && WinsAt(order, decl, raw, p, i)
                        && FirstMatch(HostRoutes(entries, order, h), raw) == Verdict(decl[order[p]][i])
  {
    MergeIsStableSort(entries, order, h, decl);
    var x := LookupInStableSort(HostRoutes(entries, order, h), Flat(order, decl), raw);
    if x == -1 {
      p, i := -1, -1;
      FlatMembers(order, decl);
      forall n, r | n in order && r in decl[n] ensures !Stops(r, raw) {
        assert r in Flat(order, decl);
      }
    } else {
      p, i := FlatWinner(order, decl, raw, x);
    }
  }

  // The same by the paths alone

  /** The j-th declaration of the p-th visited ingress matches. No match of any ingress goes before it by path order,
      none of a later-visited ingress is level with it, and none earlier in its own ingress. */
  ghost predicate MatchWinsAt(order: seq<Name>, decl: Declarations, raw: string, p: int, j: int)
    requires Covered(order, decl)
  {
    && 0 <= p < |order|
    && IsFirstMatch(decl[order[p]], raw, j)
    && (forall n, r :: n in order && r in decl[n] && Matches(r, raw) ==> InPathOrder(decl[order[p]][j], r))
    && forall q, r :: p < q < |order| && r in decl[order[q]] && Matches(r, raw) ==> !InPathOrder(r, decl[order[p]][j])
  }

  ghost predicate SomeDeclaredMatches(names: set<Name>, decl: Declarations, raw: string)
    requires names <= decl.Keys
  {
    exists n, r :: n in names && r in decl[n] && Matches(r, raw)
  }

  ghost predicate SomeDeclaredPanics(names: set<Name>, decl: Declarations)
    requires names <= decl.Keys
  {
    exists n, r :: n in names && r in decl[n] && Panics(r)
  }

  lemma WinnerMatches(order: seq<Name>, decl: Declarations, raw: string, p: int, i: int)
    requires Covered(order, decl) && WinsAt(order, decl, raw, p, i)
    ensures !Panics(decl[order[p]][i]) ==> MatchWinsAt(order, decl, raw, p, i)
    ensures Panics(decl[order[p]][i]) ==> forall n, r :: n in order && r in decl[n] ==> !Matches(r, raw)
  {
    var best := decl[order[p]][i];
    FirstMatchIsEarliestBest(decl[order[p]], raw, i);
    forall n, r | n in order && r in decl[n] && Matches(r, raw) ensures InPathOrder(best, r) {
      StopsExactly(r, raw);
      RankIsPathOrder(best, r);
    }
    if Panics(best) {
      forall n, r | n in order && r in decl[n] ensures !Matches(r, raw) {
        if Matches(r, raw) {
          MatchBeatsPanic(r, best, raw);
        }
      }
    } else {
      forall q, r | p < q < |order| && r in decl[order[q]] && Matches(r, raw) ensures !InPathOrder(r, best) {
        LaterIsBehind(order, decl, raw, p, i, q, r);
      }
    }
  }

  lemma LaterIsBehind(order: seq<Name>, decl: Declarations, raw: string, p: int, i: int, q: int, r: Route)
    requires Covered(order, decl) && WinsAt(order, decl, raw, p, i)
    requires p < q < |order| && r in decl[order[q]] && Matches(r, raw)
    ensures !InPathOrder(r, decl[order[p]][i])
  {
    var best := decl[order[p]][i];
    StopsExactly(r, raw);
    RankIsPathOrder(best, r);
    assert !Owns(order, decl, raw, order[q]);
    assert order[q] in order;
  }

  /** Routing through an aggregate, by the paths alone: the latest-visited ingress with a foremost match wins with the
      first of its own; without a match the lookup panics if an empty prefix is declared, and misses otherwise. */
  lemma LookupDeclared(entries: map<Name, Entry>, order: seq<Name>, h: string, decl: Declarations, raw: string)
    returns (p: int, i: int)
    requires CompiledFrom(entries, order, h, decl) && Listing(order, decl.Keys)
    ensures SomeDeclaredMatches(decl.Keys, decl, raw) ==>
              MatchWinsAt(order, decl, raw, p, i) && FirstMatch(HostRoutes(entries, order, h), raw) == Hit(decl[order[p]][i])
    ensures !SomeDeclaredMatches(decl.Keys, decl, raw) ==>
              FirstMatch(HostRoutes(entries, order, h), raw) == if SomeDeclaredPanics(decl.Keys, decl) then Crash else Miss
  {
    p, i := LookupWinner(entries, order, h, decl, raw);
    if p == -1 {
      NoneDeclared(order, decl, raw);
    } else {
      WinnerDeclared(order, decl, raw, p, i);
    }
  }

  lemma NoneDeclared(order: seq<Name>, decl: Declarations, raw: string)
    requires Listing(order, decl.Keys)
    requires forall n, r :: n in order && r in decl[n] ==> !Stops(r, raw)
    ensures !SomeDeclaredMatches(decl.Keys, decl, raw) && !SomeDeclaredPanics(decl.Keys, decl)
  {
    forall n, r | n in decl && r in decl[n] ensures !Matches(r, raw) && !Panics(r) {
      assert n in order;
      StopsExactly(r, raw);
    }
  }

  lemma WinnerDeclared(order: seq<Name>, decl: Declarations, raw: string, p: int, i: int)
    requires Listing(order, decl.Keys) && WinsAt(order, decl, raw, p, i)
    ensures var best := decl[order[p]][i];
            && (Panics(best) ==> !SomeDeclaredMatches(decl.Keys, decl, raw) && SomeDeclaredPanics(decl.Keys, decl)
                                 && Verdict(best) == Crash)
            && (!Panics(best) ==> SomeDeclaredMatches(decl.Keys, decl, raw) && MatchWinsAt(order, decl, raw, p, i)
                                  && Verdict(best) == Hit(best))
  {
    var best := decl[order[p]][i];
    WinnerMatches(order, decl, raw, p, i);
    assert order[p] in order && best in decl[order[p]];
    assert forall n :: n in decl.Keys <==> n in order;
  }

  // Order independence

  ghost predicate SameNames(a: seq<Name>, b: seq<Name>) {
    forall n :: n in a <==> n in b
  }

  ghost predicate AtMostOneOwner(order: seq<Name>, decl: Declarations, raw: string)
    requires Covered(order, decl)
  {
    forall m, n :: Owns(order, decl, raw, m) && Owns(order, decl, raw, n) ==> m == n
  }

  lemma EarliestBestUnique(rs: seq<Route>, raw: string, i: int, j: int)
    requires IsEarliestBest(rs, raw, i) && IsEarliestBest(rs, raw, j)
    ensures i == j
  {
  }

  lemma WinnerOwns(order: seq<Name>, decl: Declarations, raw: string, p: int, i: int)
    requires Covered(order, decl) && WinsAt(order, decl, raw, p, i)
    ensures Owns(order, decl, raw, order[p])
  {
    assert decl[order[p]][i] in decl[order[p]];
  }

  /** With at most one owner of the best match, every walk over the state gives the same outcome. */
  lemma OneOwnerAnyOrder(
    entries: map<Name, Entry>, a: seq<Name>, b: seq<Name>, h: string, decl: Declarations, raw: string
  )
    requires SameNames(a, b)
    requires CompiledFrom(entries, a, h, decl) && CompiledFrom(entries, b, h, decl)
    requires AtMostOneOwner(a, decl, raw)
    ensures FirstMatch(HostRoutes(entries, a, h), raw) == FirstMatch(HostRoutes(entries, b, h), raw)
  {
    var p, i := LookupWinner(entries, a, h, decl, raw);
    var q, j := LookupWinner(entries, b, h, decl, raw);
    if p != -1 {
      WinnerOwns(a, decl, raw, p, i);
      assert a[p] in b && decl[a[p]][i] in decl[a[p]];
    }
    if q != -1 {
      WinnerOwns(b, decl, raw, q, j);
      SameOwners(a, b, decl, raw, b[q]);
      assert b[q] in a && decl[b[q]][j] in decl[b[q]];
    }
    if p != -1 && q != -1 {
      assert a[p] == b[q];
      EarliestBestUnique(decl[a[p]], raw, i, j);
    }
  }

  lemma SameOwners(a: seq<Name>, b: seq<Name>, decl: Declarations, raw: string, n: Name)
    requires SameNames(a, b) && Covered(a, decl) && Covered(b, decl)
    ensures Owns(a, decl, raw, n) <==> Owns(b, decl, raw, n)
  {
    assert forall k :: BestRank(a, decl, raw, k) <==> BestRank(b, decl, raw, k);
  }

  /** Two routes of different ingresses that some request path cannot tell apart by rank. */
  predicate Clash(a: Route, b: Route) {
    && a.pathType == b.pathType
    && (a.pathType.Exact? ==> a.path == b.path)
    && (a.pathType.Prefix? ==> |a.path| == |b.path| && (a.path == "" || a.path[..|a.path| - 1] == b.path[..|b.path| - 1]))
  }

  ghost predicate NoClash(order: seq<Name>, decl: Declarations)
    requires Covered(order, decl)
  {
    forall m, n, r, s :: m in order && n in order && m != n && r in decl[m] && s in decl[n] ==> !Clash(r, s)
  }

  /** Two routes of equal rank stop the same lookup only if they clash. */
  lemma SameRankClash(a: Route, b: Route, raw: string)
    requires RankOf(a) == RankOf(b) && Stops(a, raw) && Stops(b, raw)
    ensures Clash(a, b)
  {
    if a.pathType.Prefix? && a.path != "" {
      assert a.path <= raw ==> a.path == raw[..|a.path|];
      assert b.path <= raw ==> b.path == raw[..|b.path|];
    }
  }

  lemma NoClashOneOwner(order: seq<Name>, decl: Declarations, raw: string)
    requires Covered(order, decl) && NoClash(order, decl)
    ensures AtMostOneOwner(order, decl, raw)
  {
    forall m, n | Owns(order, decl, raw, m) && Owns(order, decl, raw, n) ensures m == n {
      var r :| r in decl[m] && Stops(r, raw) && BestRank(order, decl, raw, RankOf(r));
      var s :| s in decl[n] && Stops(s, raw) && BestRank(order, decl, raw, RankOf(s));
      assert AtLeast(RankOf(r), RankOf(s)) && AtLeast(RankOf(s), RankOf(r));
      SameRankClash(r, s, raw);
    }
  }

  /** A host has a route list in the aggregate exactly when some visited ingress declares a route for it. */
  lemma {:induction false} HostPresent(entries: map<Name, Entry>, order: seq<Name>, h: string, decl: Declarations)
    requires CompiledFrom(entries, order, h, decl)
    ensures h in MergedHosts(entries, order) <==> exists n :: n in order && decl[n] != []
  {
    MergedHost(entries, order, h);
    MergeIsStableSort(entries, order, h, decl);
    SameMembers(HostRoutes(entries, order, h), Flat(order, decl));
    FlatMembers(order, decl);
    var list := HostRoutes(entries, order, h);
    if list != [] {
      assert list[0] in Flat(order, decl);
    }
    forall n | n in order && decl[n] != [] ensures list != [] {
      assert decl[n][0] in decl[n];
      assert decl[n][0] in Flat(order, decl);
    }
  }

  /** Host lookup, then path lookup: None when no host list applies. */
  function Resolve(hosts: map<string, seq<Route>>, host: string, path: string): Option<Found> {
    match Hosts.LookupHost(hosts, host)
    case None => None
    case Some(rs) => Some(FirstMatch(rs, path))
  }

  ghost predicate SameOutcomes(a: map<string, seq<Route>>, b: map<string, seq<Route>>) {
    && a.Keys == b.Keys
    && forall h, raw :: h in a ==> FirstMatch(a[h], raw) == FirstMatch(b[h], raw)
  }

  /** Aggregation is order independent: without clashing routes or shared certificate hosts, every walk order
      routes every host and path alike and yields the same certificates. */
  lemma AnyOrderSameRouting(entries: map<Name, Entry>, a: seq<Name>, b: seq<Name>, decls: string -> Declarations)
    requires SameNames(a, b)
    requires forall h :: CompiledFrom(entries, a, h, decls(h)) && NoClash(a, decls(h))
    requires forall m, n, h :: m in a && n in a && h in ConfOf(entries, m).certs && h in ConfOf(entries, n).certs ==> m == n
    ensures forall host, path :: Resolve(MergedHosts(entries, a), host, path) == Resolve(MergedHosts(entries, b), host, path)
    ensures MergedCerts(entries, a) == MergedCerts(entries, b)
  {
    var x, y := MergedHosts(entries, a), MergedHosts(entries, b);
    forall h ensures h in x <==> h in y {
      assert CompiledFrom(entries, a, h, decls(h));
      HostPresent(entries, a, h, decls(h));
      HostPresent(entries, b, h, decls(h));
    }
    forall h, raw | h in x ensures FirstMatch(x[h], raw) == FirstMatch(y[h], raw) {
      assert CompiledFrom(entries, a, h, decls(h)) && NoClash(a, decls(h));
      MergedHost(entries, a, h);
      MergedHost(entries, b, h);
      NoClashOneOwner(a, decls(h), raw);
      OneOwnerAnyOrder(entries, a, b, h, decls(h), raw);
    }
    assert SameOutcomes(x, y);
    forall host, path ensures Resolve(x, host, path) == Resolve(y, host, path) {
      SameResolve(x, y, host, path);
    }
    CertsAnyOrder(entries, a, b);
  }

  lemma SameResolve(a: map<string, seq<Route>>, b: map<string, seq<Route>>, host: string, path: string)
    requires SameOutcomes(a, b)
    ensures Resolve(a, host, path) == Resolve(b, host, path)
  {
  }

  // Exactly when the walk order shows

  ghost predicate Listing(order: seq<Name>, names: set<Name>) {
    && (forall n :: n in order <==> n in names)
    && (forall i, j :: 0 <= i < j < |order| ==> order[i] != order[j])
  }

  ghost predicate OrderFree(entries: map<Name, Entry>, names: set<Name>, h: string, raw: string) {
    forall a, b :: Listing(a, names) && Listing(b, names) ==>
      FirstMatch(HostRoutes(entries, a, h), raw) == FirstMatch(HostRoutes(entries, b, h), raw)
  }

  lemma {:induction false} ListingExists(names: set<Name>) returns (order: seq<Name>)
    ensures Listing(order, names)
  {
    if names == {} {
      order := [];
    } else {
      var n :| n in names;
      var rest := ListingExists(names - {n});
      order := rest + [n];
    }
  }

  lemma EndingWith(names: set<Name>, n: Name) returns (order: seq<Name>)
    requires n in names
    ensures Listing(order, names) && order != [] && order[|order| - 1] == n
  {
    var rest := ListingExists(names - {n});
    order := rest + [n];
  }

  /** An owner that is visited last decides the lookup. */
  lemma LastOwnerWins(entries: map<Name, Entry>, order: seq<Name>, h: string, decl: Declarations, raw: string)
    returns (i: int)
    requires CompiledFrom(entries, order, h, decl)
    requires order != [] && Owns(order, decl, raw, order[|order| - 1])
    ensures 0 <= i < |decl[order[|order| - 1]]|
    ensures FirstMatch(HostRoutes(entries, order, h), raw) == Verdict(decl[order[|order| - 1]][i])
    ensures Stops(decl[order[|order| - 1]][i], raw) && BestRank(order, decl, raw, RankOf(decl[order[|order| - 1]][i]))
  {
    var p;
    p, i := LookupWinner(entries, order, h, decl, raw);
    var last := order[|order| - 1];
    var r :| r in decl[last] && Stops(r, raw) && BestRank(order, decl, raw, RankOf(r));
    assert p != -1;
    assert !(p < |order| - 1);
  }

  /** An empty prefix path, which panics, is the best that stops the lookup. */
  ghost predicate CrashIsBest(order: seq<Name>, decl: Declarations, raw: string)
    requires Covered(order, decl)
  {
    && (exists n, r :: n in order && r in decl[n] && r.pathType.Prefix? && r.path == "")
    && BestRank(order, decl, raw, PrefixRank(0))
  }

  /** When an empty prefix is the best there is, every walk order panics. */
  lemma CrashAnyOrder(entries: map<Name, Entry>, order: seq<Name>, names: set<Name>, h: string, decl: Declarations, raw: string)
    requires Listing(order, names) && CompiledFrom(entries, order, h, decl)
    requires CrashIsBest(order, decl, raw)
    ensures OrderFree(entries, names, h, raw)
  {
    forall a | Listing(a, names) ensures FirstMatch(HostRoutes(entries, a, h), raw) == Crash {
      CrashTransfers(order, a, decl, raw);
      CrashWins(entries, a, h, decl, raw);
    }
  }

  lemma CrashTransfers(order: seq<Name>, a: seq<Name>, decl: Declarations, raw: string)
    requires SameNames(order, a) && Covered(order, decl) && Covered(a, decl) && CrashIsBest(order, decl, raw)
    ensures CrashIsBest(a, decl, raw)
  {
    var n, r :| n in order && r in decl[n] && r.pathType.Prefix? && r.path == "";
    assert n in a;
  }

  lemma CrashWins(entries: map<Name, Entry>, a: seq<Name>, h: string, decl: Declarations, raw: string)
    requires CompiledFrom(entries, a, h, decl) && CrashIsBest(a, decl, raw)
    ensures FirstMatch(HostRoutes(entries, a, h), raw) == Crash
  {
    var p, i := LookupWinner(entries, a, h, decl, raw);
    var n, r :| n in a && r in decl[n] && r.pathType.Prefix? && r.path == "";
    assert Stops(r, raw);
    WinnerCrashes(a, decl, raw, p, i);
  }

  lemma WinnerCrashes(a: seq<Name>, decl: Declarations, raw: string, p: int, i: int)
    requires Covered(a, decl) && WinsAt(a, decl, raw, p, i) && BestRank(a, decl, raw, PrefixRank(0))
    ensures Verdict(decl[a[p]][i]) == Crash
  {
    var best := decl[a[p]][i];
    assert a[p] in a && best in decl[a[p]];
    assert AtLeast(PrefixRank(0), RankOf(best));
  }

  lemma OneOwnerFree(entries: map<Name, Entry>, order: seq<Name>, names: set<Name>, h: string, decl: Declarations, raw: string)
    requires Listing(order, names) && CompiledFrom(entries, order, h, decl)
    requires AtMostOneOwner(order, decl, raw)
    ensures OrderFree(entries, names, h, raw)
  {
    forall a, b | Listing(a, names) && Listing(b, names)
      ensures FirstMatch(HostRoutes(entries, a, h), raw) == FirstMatch(HostRoutes(entries, b, h), raw)
    {
      OneOwnerAnyOrder(entries, order, a, h, decl, raw);
      OneOwnerAnyOrder(entries, order, b, h, decl, raw);
    }
  }

  /** Two owners of a best match that does not panic: visiting one or the other last gives two outcomes. */
  lemma TwoOwnersShow(
    entries: map<Name, Entry>, order: seq<Name>, names: set<Name>, h: string, decl: Declarations, raw: string, m: Name, n: Name
  )
    requires Listing(order, names) && CompiledFrom(entries, order, h, decl)
    requires Owns(order, decl, raw, m) && Owns(order, decl, raw, n) && m != n
    requires !CrashIsBest(order, decl, raw)
    ensures !OrderFree(entries, names, h, raw)
  {
    var a := EndingWith(names, m);
    var b := EndingWith(names, n);
    SameOwners(order, a, decl, raw, m);
    SameOwners(order, b, decl, raw, n);
    var i := LastOwnerWins(entries, a, h, decl, raw);
    var j := LastOwnerWins(entries, b, h, decl, raw);
    var r, s := decl[m][i], decl[n][j];
    assert r in decl[m] && s in decl[n];
    assert r.ingress != s.ingress;
    assert BestRank(order, decl, raw, RankOf(r));
    assert Verdict(r) == Hit(r);
  }

  /** The outcome of a lookup does not depend on the walk order exactly when at most one ingress owns a best
      match, or the best match is an empty prefix, which panics whoever owns it. */
  lemma OrderFreeExactly(entries: map<Name, Entry>, order: seq<Name>, names: set<Name>, h: string, decl: Declarations, raw: string)
    requires Listing(order, names) && CompiledFrom(entries, order, h, decl)
    ensures OrderFree(entries, names, h, raw) <==> AtMostOneOwner(order, decl, raw) || CrashIsBest(order, decl, raw)
  {
    if CrashIsBest(order, decl, raw) {
      CrashAnyOrder(entries, order, names, h, decl, raw);
    } else if AtMostOneOwner(order, decl, raw) {
      OneOwnerFree(entries, order, names, h, decl, raw);
    } else {
      var m, n :| Owns(order, decl, raw, m) && Owns(order, decl, raw, n) && m != n;
      TwoOwnersShow(entries, order, names, h, decl, raw, m, n);
    }
  }

  // Certificates

  /** The certificate of a host comes from the first-visited ingress that has one for it. */
  lemma {:induction false} MergedCert(entries: map<Name, Entry>, order: seq<Name>, h: string)
    ensures h in MergedCerts(entries, order) <==> exists n :: n in order && h in ConfOf(entries, n).certs
    ensures forall p :: 0 <= p < |order| && h in ConfOf(entries, order[p]).certs
                     && (forall q :: 0 <= q < p ==> h !in ConfOf(entries, order[q]).certs)
              ==> Lookup(MergedCerts(entries, order), h) == Some(ConfOf(entries, order[p]).certs[h])
    decreases |order|
  {
    if order != [] {
      var init, last := order[..|order| - 1], order[|order| - 1];
      MergedCert(entries, init, h);
      assert forall n :: n in order <==> n in init || n == last;
      assert forall p :: 0 <= p < |init| ==> init[p] == order[p];
      forall p | 0 <= p < |order| && h in ConfOf(entries, order[p]).certs
              && (forall q :: 0 <= q < p ==> h !in ConfOf(entries, order[q]).certs)
        ensures Lookup(MergedCerts(entries, order), h) == Some(ConfOf(entries, order[p]).certs[h])
      {
        if p == |order| - 1 {
          assert h !in MergedCerts(entries, init);
        }
      }
    }
  }

  /** If no host has certificates from two ingresses, every walk order gives the same certificate map. */
  lemma CertsAnyOrder(entries: map<Name, Entry>, a: seq<Name>, b: seq<Name>)
    requires SameNames(a, b)
    requires forall m, n, h :: m in a && n in a && h in ConfOf(entries, m).certs && h in ConfOf(entries, n).certs ==> m == n
    ensures MergedCerts(entries, a) == MergedCerts(entries, b)
  {
    forall h ensures Lookup(MergedCerts(entries, a), h) == Lookup(MergedCerts(entries, b), h) {
      SameCert(entries, a, b, h);
    }
    SameLookups(MergedCerts(entries, a), MergedCerts(entries, b));
  }

  lemma SameCert(entries: map<Name, Entry>, a: seq<Name>, b: seq<Name>, h: string)
    requires SameNames(a, b)
    requires forall m, n :: m in a && n in a && h in ConfOf(entries, m).certs && h in ConfOf(entries, n).certs ==> m == n
    ensures Lookup(MergedCerts(entries, a), h) == Lookup(MergedCerts(entries, b), h)
  {
    OneCert(entries, a, h);
    OneCert(entries, b, h);
  }

  lemma OneCert(entries: map<Name, Entry>, order: seq<Name>, h: string)
    requires forall m, n :: m in order && n in order && h in ConfOf(entries, m).certs && h in ConfOf(entries, n).certs ==> m == n
    ensures forall n :: n in order && h in ConfOf(entries, n).certs ==>
              Lookup(MergedCerts(entries, order), h) == Some(ConfOf(entries, n).certs[h])
    ensures (forall n :: n in order ==> h !in ConfOf(entries, n).certs) ==> Lookup(MergedCerts(entries, order), h) == None
  {
    MergedCert(entries, order, h);
    forall n | n in order && h in ConfOf(entries, n).certs
      ensures Lookup(MergedCerts(entries, order), h) == Some(ConfOf(entries, n).certs[h])
    {
      var p := FirstPosition(order, n);
    }
  }

  lemma {:induction false} FirstPosition(order: seq<Name>, n: Name) returns (p: nat)
    requires n in order
    ensures p < |order| && order[p] == n && forall q :: 0 <= q < p ==> order[q] != n
  {
    if order[0] == n {
      p := 0;
    } else {
      var k := FirstPosition(order[1..], n);
      p := k + 1;
    }
  }
}
