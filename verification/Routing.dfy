/** The per-host route list of pkg/proxy/config.go: insertion by rank and
    first-match lookup. */
module Routing {
  import opened Prelude
  import opened Kube

  /** Exact routes share the top rank; a prefix route ranks by its length. */
  datatype Rank = ExactRank | PrefixRank(length: nat)

  function RankOf(r: Route): Rank {
    match r.pathType
    case Exact => ExactRank
    case Prefix => PrefixRank(|r.path|)
  }

  predicate AtLeast(a: Rank, b: Rank) {
    a.ExactRank? || (b.PrefixRank? && a.length >= b.length)
  }

  ghost predicate Sorted(rs: seq<Route>) {
    forall i, j :: 0 <= i < j < |rs| ==> AtLeast(RankOf(rs[i]), RankOf(rs[j]))
  }

  function HasRank(k: Rank): Route -> bool {
    (r: Route) => RankOf(r) == k
  }

  /** out lists the routes of rs from highest to lowest rank and keeps their order within a rank. */
  ghost predicate IsStableSort(out: seq<Route>, rs: seq<Route>) {
    && Sorted(out)
    && forall k :: Select(HasRank(k), out) == Select(HasRank(k), rs)
  }

  // Insertion

  /** Where AddRoute puts a prefix route: before the first prefix route that is not longer. */
  function InsertAt(rs: seq<Route>, r: Route): (i: nat)
    ensures i <= |rs|
    ensures forall j :: 0 <= j < i ==> !AtLeast(RankOf(r), RankOf(rs[j]))
    ensures i < |rs| ==> AtLeast(RankOf(r), RankOf(rs[i]))
  {
    if rs == [] || AtLeast(RankOf(r), RankOf(rs[0])) then 0
    else 1 + InsertAt(rs[1..], r)
  }

  function Insert(rs: seq<Route>, r: Route): (out: seq<Route>)
    ensures |out| == |rs| + 1
  {
    var i := InsertAt(rs, r);
    rs[..i] + [r] + rs[i..]
  }

  /** Adds every route of rs in turn, starting from acc. */
  function InsertAll(acc: seq<Route>, rs: seq<Route>): (out: seq<Route>) {
    if rs == [] then acc
    else Insert(InsertAll(acc, rs[..|rs| - 1]), rs[|rs| - 1])
  }

  lemma InsertKeepsSorted(rs: seq<Route>, r: Route)
    requires Sorted(rs)
    ensures Sorted(Insert(rs, r))
  {
    var i := InsertAt(rs, r);
    var out := Insert(rs, r);
    forall a, b | 0 <= a < b < |out|
      ensures AtLeast(RankOf(out[a]), RankOf(out[b]))
    {
      assert a < i ==> out[a] == rs[a];
      assert a > i ==> out[a] == rs[a - 1];
      assert b < i ==> out[b] == rs[b];
      assert b > i ==> out[b] == rs[b - 1];
    }
  }

  lemma InsertSelect(rs: seq<Route>, r: Route, k: Rank)
    ensures Select(HasRank(k), Insert(rs, r))
         == (if RankOf(r) == k then [r] else []) + Select(HasRank(k), rs)
  {
    var i := InsertAt(rs, r);
    var p := HasRank(k);
    SelectConcat(p, rs[..i] + [r], rs[i..]);
    SelectConcat(p, rs[..i], [r]);
    SelectConcat(p, rs[..i], rs[i..]);
    assert rs == rs[..i] + rs[i..];
    assert Select(p, [r]) == (if RankOf(r) == k then [r] else []);
    if RankOf(r) == k {
      SelectNone(p, rs[..i]);
    }
  }

  lemma {:induction false} InsertAllKeepsSorted(acc: seq<Route>, rs: seq<Route>)
    requires Sorted(acc)
    ensures Sorted(InsertAll(acc, rs))
  {
    if rs != [] {
      InsertAllKeepsSorted(acc, rs[..|rs| - 1]);
      InsertKeepsSorted(InsertAll(acc, rs[..|rs| - 1]), rs[|rs| - 1]);
    }
  }

  lemma {:induction false} InsertAllSelect(acc: seq<Route>, rs: seq<Route>, k: Rank)
    ensures Select(HasRank(k), InsertAll(acc, rs))
         == Backwards(Select(HasRank(k), rs)) + Select(HasRank(k), acc)
  {
    var p := HasRank(k);
    if rs != [] {
      var init, last := rs[..|rs| - 1], rs[|rs| - 1];
      var tail := if RankOf(last) == k then [last] else [];
      assert Select(p, [last]) == tail && Backwards(tail) == tail;
      calc {
        Select(p, InsertAll(acc, rs));
        { InsertSelect(InsertAll(acc, init), last, k); }
        tail + Select(p, InsertAll(acc, init));
        { InsertAllSelect(acc, init, k); }
        tail + (Backwards(Select(p, init)) + Select(p, acc));
        (tail + Backwards(Select(p, init))) + Select(p, acc);
        { BackwardsConcat(Select(p, init), tail); }
        Backwards(Select(p, init) + tail) + Select(p, acc);
        { SelectConcat(p, init, [last]); assert rs == init + [last]; }
        Backwards(Select(p, rs)) + Select(p, acc);
      }
    }
  }

  lemma {:induction false} InsertAllConcat(acc: seq<Route>, a: seq<Route>, b: seq<Route>)
    ensures InsertAll(acc, a + b) == InsertAll(InsertAll(acc, a), b)
  {
    if b == [] {
      assert a + b == a;
    } else {
      InsertAllConcat(acc, a, b[..|b| - 1]);
      assert (a + b)[..|a + b| - 1] == a + b[..|b| - 1];
    }
  }

  lemma {:induction false} InsertAllPermutes(acc: seq<Route>, rs: seq<Route>)
    ensures multiset(InsertAll(acc, rs)) == multiset(acc) + multiset(rs)
  {
    if rs != [] {
      var init, last := rs[..|rs| - 1], rs[|rs| - 1];
      InsertAllPermutes(acc, init);
      InsertPermutes(InsertAll(acc, init), last);
      assert rs == init + [last];
    }
  }

  lemma InsertPermutes(rs: seq<Route>, r: Route)
    ensures multiset(Insert(rs, r)) == multiset(rs) + multiset{r}
  {
    var i := InsertAt(rs, r);
    assert rs == rs[..i] + rs[i..];
  }

  lemma InsertMember(rs: seq<Route>, r: Route, q: Route)
    ensures q in Insert(rs, r) <==> q == r || q in rs
  {
    SpliceMember(rs, InsertAt(rs, r), r, q);
  }

  lemma SpliceMember<T>(s: seq<T>, i: nat, x: T, y: T)
    requires i <= |s|
    ensures y in s[..i] + [x] + s[i..] <==> y == x || y in s
  {
    Halves(s, i);
    assert y in s <==> y in s[..i] || y in s[i..];
  }

  // Insertion depends on ranks only

  ghost predicate SameRanks(a: seq<Route>, b: seq<Route>) {
    |a| == |b| && forall i :: 0 <= i < |a| ==> RankOf(a[i]) == RankOf(b[i])
  }

  lemma SameSpot(a: seq<Route>, b: seq<Route>, r: Route, s: Route)
    requires SameRanks(a, b) && RankOf(r) == RankOf(s)
    ensures InsertAt(a, r) == InsertAt(b, s)
    ensures SameRanks(Insert(a, r), Insert(b, s))
  {
    var i, j := InsertAt(a, r), InsertAt(b, s);
    assert i < |a| ==> RankOf(a[i]) == RankOf(b[i]);
    assert j < |b| ==> RankOf(a[j]) == RankOf(b[j]);
  }

  /** Lists of equal ranks end up in the same order, so equal results come from equal lists. */
  lemma {:induction false} InsertAllInjective(a: seq<Route>, b: seq<Route>)
    requires SameRanks(a, b)
    ensures SameRanks(InsertAll([], a), InsertAll([], b))
    ensures InsertAll([], a) == InsertAll([], b) ==> a == b
    decreases |a|
  {
    if a != [] {
      var n := |a| - 1;
      InsertAllInjective(a[..n], b[..n]);
      InsertInjective(InsertAll([], a[..n]), InsertAll([], b[..n]), a[n], b[n]);
      LastApart(a);
      LastApart(b);
    }
  }

  lemma LastApart<T>(s: seq<T>)
    requires s != []
    ensures s == s[..|s| - 1] + [s[|s| - 1]]
  {
  }

  lemma InsertInjective(a: seq<Route>, b: seq<Route>, r: Route, s: Route)
    requires SameRanks(a, b) && RankOf(r) == RankOf(s)
    ensures SameRanks(Insert(a, r), Insert(b, s))
    ensures Insert(a, r) == Insert(b, s) ==> a == b && r == s
  {
    SameSpot(a, b, r, s);
    SpliceInjective(a, b, InsertAt(a, r), r, s);
  }

  lemma SpliceInjective<T>(a: seq<T>, b: seq<T>, i: nat, r: T, s: T)
    requires |a| == |b| && i <= |a|
    ensures a[..i] + [r] + a[i..] == b[..i] + [s] + b[i..] ==> a == b && r == s
  {
    var x, y := a[..i] + [r] + a[i..], b[..i] + [s] + b[i..];
    assert forall k :: 0 <= k < |a| ==> a[k] == x[if k < i then k else k + 1];
    assert forall k :: 0 <= k < |b| ==> b[k] == y[if k < i then k else k + 1];
    assert x[i] == r && y[i] == s;
  }

  /** One pass of AddRoute sorts by rank and reverses ties. */
  lemma OnePassReversesTies(rs: seq<Route>)
    ensures IsStableSort(InsertAll([], rs), Backwards(rs))
  {
    InsertAllKeepsSorted([], rs);
    forall k ensures Select(HasRank(k), InsertAll([], rs)) == Select(HasRank(k), Backwards(rs)) {
      InsertAllSelect([], rs, k);
      SelectBackwards(HasRank(k), rs);
    }
  }

  /** A second pass over the result restores declaration order: together they are a stable sort. */
  lemma TwoPassesAreStableSort(rs: seq<Route>)
    ensures IsStableSort(InsertAll([], InsertAll([], rs)), rs)
  {
    var once := InsertAll([], rs);
    OnePassReversesTies(rs);
    OnePassReversesTies(once);
    forall k ensures Select(HasRank(k), InsertAll([], once)) == Select(HasRank(k), rs) {
      var p := HasRank(k);
      SelectBackwards(p, once);
      SelectBackwards(p, rs);
      BackwardsTwice(Select(p, rs));
    }
  }

  /** A list has at most one stable sort. */
  lemma {:induction false} StableSortUnique(a: seq<Route>, b: seq<Route>)
    requires Sorted(a) && Sorted(b)
    requires forall k :: Select(HasRank(k), a) == Select(HasRank(k), b)
    ensures a == b
  {
    SameMembers(a, b);
    if a != [] { assert a[0] in b; }
    if b != [] { assert b[0] in a; }
    if a != [] {
      SameTop(a, b);
      SameTop(b, a);
      assert RankOf(a[0]) == RankOf(b[0]);
      var p := HasRank(RankOf(a[0]));
      assert Select(p, a) == Select(p, b);
      assert a[0] == Select(p, a)[0] == Select(p, b)[0] == b[0];
      forall k ensures Select(HasRank(k), a[1..]) == Select(HasRank(k), b[1..]) {
        var q := HasRank(k);
        var head := if q(a[0]) then [a[0]] else [];
        assert head + Select(q, a[1..]) == head + Select(q, b[1..]);
        assert Select(q, a[1..]) == (head + Select(q, a[1..]))[|head|..];
        assert Select(q, b[1..]) == (head + Select(q, b[1..]))[|head|..];
      }
      StableSortUnique(a[1..], b[1..]);
    }
  }

  lemma SameMembers(a: seq<Route>, b: seq<Route>)
    requires forall k :: Select(HasRank(k), a) == Select(HasRank(k), b)
    ensures forall r :: r in a <==> r in b
  {
    forall r ensures r in a <==> r in b {
      var p := HasRank(RankOf(r));
      SelectMembers(p, a);
      SelectMembers(p, b);
      assert Select(p, a) == Select(p, b);
    }
  }

  lemma SameTop(a: seq<Route>, b: seq<Route>)
    requires a != [] && b != [] && Sorted(a)
    requires forall k :: Select(HasRank(k), a) == Select(HasRank(k), b)
    ensures AtLeast(RankOf(a[0]), RankOf(b[0]))
  {
    var p := HasRank(RankOf(b[0]));
    assert b[0] in Select(p, b);
    assert Select(p, a) == Select(p, b);
    SelectMembers(p, a);
  }

  // Lookup

  /** The lookup loop ends at r: r matches, or evaluating the match slices an empty path. */
  predicate Stops(r: Route, raw: string) {
    match r.pathType
    case Exact => r.path == raw
    case Prefix => r.path == "" || r.path[..|r.path| - 1] == raw || r.path <= raw
  }

  function StopsAt(raw: string): Route -> bool {
    (r: Route) => Stops(r, raw)
  }

  /** Crash is the slice-bounds panic of a prefix route with an empty path. */
  datatype Found = Hit(route: Route) | Miss | Crash

  function Verdict(r: Route): Found {
    if r.pathType.Prefix? && r.path == "" then Crash else Hit(r)
  }

  function FirstMatch(rs: seq<Route>, raw: string): Found {
    if rs == [] then Miss
    else if Stops(rs[0], raw) then Verdict(rs[0])
    else FirstMatch(rs[1..], raw)
  }

  /** rs[i] is the earliest of the stopping routes of the highest rank. */
  ghost predicate IsEarliestBest(rs: seq<Route>, raw: string, i: int) {
    && 0 <= i < |rs|
    && Stops(rs[i], raw)
    && (forall j :: 0 <= j < |rs| && Stops(rs[j], raw) ==> AtLeast(RankOf(rs[i]), RankOf(rs[j])))
    && (forall j :: 0 <= j < i && Stops(rs[j], raw) ==> RankOf(rs[j]) != RankOf(rs[i]))
  }

  ghost predicate NoneBefore(rs: seq<Route>, raw: string, n: int) {
    forall i :: 0 <= i < n && i < |rs| ==> !Stops(rs[i], raw)
  }

  ghost predicate NothingStops(rs: seq<Route>, raw: string) {
    NoneBefore(rs, raw, |rs|)
  }

  lemma {:induction false} LookupFirst(rs: seq<Route>, raw: string) returns (i: int)
    ensures i == -1 ==> FirstMatch(rs, raw) == Miss && NothingStops(rs, raw)
    ensures i != -1 ==> && 0 <= i < |rs| && Stops(rs[i], raw) && FirstMatch(rs, raw) == Verdict(rs[i])
                         && NoneBefore(rs, raw, i)
  {
    if rs == [] {
      i := -1;
    } else if Stops(rs[0], raw) {
      i := 0;
    } else {
      var k := LookupFirst(rs[1..], raw);
      i := if k == -1 then -1 else k + 1;
    }
  }

  /** Looking up in a stable sort finds the earliest best route of the unsorted list. */
  lemma LookupInStableSort(out: seq<Route>, rs: seq<Route>, raw: string) returns (i: int)
    requires IsStableSort(out, rs)
    ensures i == -1 ==> FirstMatch(out, raw) == Miss && NothingStops(rs, raw)
    ensures i != -1 ==> IsEarliestBest(rs, raw, i) && FirstMatch(out, raw) == Verdict(rs[i])
  {
    SameMembers(out, rs);
    var p := LookupFirst(out, raw);
    if p == -1 {
      i := -1;
      forall j | 0 <= j < |rs| ensures !Stops(rs[j], raw) {
        assert rs[j] in out;
      }
    } else {
      i := FirstOfRank(out, rs, raw, p);
      forall j | 0 <= j < |rs| && Stops(rs[j], raw) ensures AtLeast(RankOf(rs[i]), RankOf(rs[j])) {
        assert rs[j] in out;
        var q :| 0 <= q < |out| && out[q] == rs[j];
        assert p <= q;
      }
    }
  }

  /** The first stopping route of out is the first stopping route of its rank in rs. */
  lemma FirstOfRank(out: seq<Route>, rs: seq<Route>, raw: string, p: nat) returns (i: nat)
    requires IsStableSort(out, rs)
    requires p < |out| && Stops(out[p], raw) && NoneBefore(out, raw, p)
    ensures i < |rs| && rs[i] == out[p]
    ensures forall j :: 0 <= j < i && Stops(rs[j], raw) ==> RankOf(rs[j]) != RankOf(rs[i])
  {
    var k := RankOf(out[p]);
    var both := (r: Route) => RankOf(r) == k && Stops(r, raw);
    SelectSelect(HasRank(k), StopsAt(raw), both, out);
    SelectSelect(HasRank(k), StopsAt(raw), both, rs);
    assert Select(HasRank(k), out) == Select(HasRank(k), rs);
    SelectMembers(both, out);
    assert out[p] in Select(both, out);
    var q := SelectFirst(both, out);
    assert q == p;
    i := SelectFirst(both, rs);
  }

  // What a lookup answers, by the paths alone

  /** The request path is the route's path; for a prefix route it extends that path, or lacks just its last byte. */
  ghost predicate Matches(r: Route, raw: string) {
    match r.pathType
    case Exact => raw == r.path
    case Prefix => r.path != "" && ((exists rest :: raw == r.path + rest) || (exists last: char :: raw + [last] == r.path))
  }

  /** A prefix route with an empty path, on which every lookup that gets to it panics. */
  predicate Panics(r: Route) {
    r.pathType.Prefix? && r.path == ""
  }

  lemma StopsExactly(r: Route, raw: string)
    ensures Stops(r, raw) <==> Matches(r, raw) || Panics(r)
  {
    var p := r.path;
    if r.pathType.Prefix? && p != "" {
      if p <= raw {
        assert raw == p + raw[|p|..];
      }
      if p[..|p| - 1] == raw {
        assert raw + [p[|p| - 1]] == p;
      }
      forall last: char | raw + [last] == p ensures p[..|p| - 1] == raw {
        assert (raw + [last])[..|raw|] == raw;
      }
    }
  }

  /** A host with one route: the lookup panics, finds it exactly when its path matches, or misses. */
  lemma LookupOne(r: Route, raw: string)
    ensures r.pathType.Exact? ==> FirstMatch([r], raw) == if raw == r.path then Hit(r) else Miss
    ensures r.pathType.Prefix? && r.path != "" ==>
              (FirstMatch([r], raw) == Hit(r) <==>
               (exists rest :: raw == r.path + rest) || (exists last: char :: raw + [last] == r.path))
    ensures r.pathType.Prefix? && r.path != "" && FirstMatch([r], raw) != Hit(r) ==> FirstMatch([r], raw) == Miss
    ensures r.pathType.Prefix? && r.path == "" ==> FirstMatch([r], raw) == Crash
  {
    StopsExactly(r, raw);
    assert [r][1..] == [];
    assert FirstMatch([r], raw) == if Stops(r, raw) then Verdict(r) else Miss;
  }

  /** Exact routes come first, then prefix routes by non-increasing length of their paths. */
  ghost predicate InPathOrder(a: Route, b: Route) {
    a.pathType.Exact? || (b.pathType.Prefix? && |a.path| >= |b.path|)
  }

  ghost predicate PathSorted(rs: seq<Route>) {
    forall a, b :: 0 <= a < b < |rs| ==> InPathOrder(rs[a], rs[b])
  }

  lemma RankIsPathOrder(a: Route, b: Route)
    ensures AtLeast(RankOf(a), RankOf(b)) <==> InPathOrder(a, b)
    ensures RankOf(a) == RankOf(b) <==> InPathOrder(a, b) && InPathOrder(b, a)
  {
  }

  ghost predicate SomeMatches(rs: seq<Route>, raw: string) {
    exists j :: 0 <= j < |rs| && Matches(rs[j], raw)
  }

  /** rs[i] matches, and every other match is behind it by path order, or added earlier. */
  ghost predicate IsLatestMatch(rs: seq<Route>, raw: string, i: int) {
    && 0 <= i < |rs|
    && Matches(rs[i], raw)
    && forall j :: 0 <= j < |rs| && Matches(rs[j], raw) ==>
         InPathOrder(rs[i], rs[j]) && (InPathOrder(rs[j], rs[i]) ==> j <= i)
  }

  /** rs[i] matches, and every other match is behind it by path order, or listed later. */
  ghost predicate IsFirstMatch(rs: seq<Route>, raw: string, i: int) {
    && 0 <= i < |rs|
    && Matches(rs[i], raw)
    && forall j :: 0 <= j < |rs| && Matches(rs[j], raw) ==>
         InPathOrder(rs[i], rs[j]) && (InPathOrder(rs[j], rs[i]) ==> i <= j)
  }

  /** A match goes before every route on which the lookup panics. */
  lemma MatchBeatsPanic(r: Route, s: Route, raw: string)
    requires Matches(r, raw) && Panics(s)
    ensures !Panics(r) && InPathOrder(r, s) && !InPathOrder(s, r)
  {
  }

  lemma FirstMatchIsEarliestBest(rs: seq<Route>, raw: string, i: int)
    ensures IsFirstMatch(rs, raw, i) <==> IsEarliestBest(rs, raw, i) && !Panics(rs[i])
  {
    if 0 <= i < |rs| {
      forall j | 0 <= j < |rs|
        ensures Stops(rs[j], raw) <==> Matches(rs[j], raw) || Panics(rs[j])
        ensures AtLeast(RankOf(rs[i]), RankOf(rs[j])) <==> InPathOrder(rs[i], rs[j])
        ensures RankOf(rs[i]) == RankOf(rs[j]) <==> InPathOrder(rs[i], rs[j]) && InPathOrder(rs[j], rs[i])
      {
        StopsExactly(rs[j], raw);
        RankIsPathOrder(rs[i], rs[j]);
      }
    }
  }

  /** Best match over a whole run of AddRoute from empty: the list is the added routes in path order, and a lookup
      gives the latest-added of the foremost routes whose path matches; without a match it panics if an empty prefix
      was added, and misses otherwise. */
  lemma BestMatch(rs: seq<Route>, raw: string) returns (i: int)
    ensures multiset(InsertAll([], rs)) == multiset(rs)
    ensures PathSorted(InsertAll([], rs))
    ensures SomeMatches(rs, raw) ==> IsLatestMatch(rs, raw, i) && FirstMatch(InsertAll([], rs), raw) == Hit(rs[i])
    ensures !SomeMatches(rs, raw) ==>
              FirstMatch(InsertAll([], rs), raw) == if exists r :: r in rs && Panics(r) then Crash else Miss
  {
    i := BestStop(rs, raw);
    InsertAllPermutes([], rs);
    InsertAllKeepsSorted([], rs);
    SortedByPath(InsertAll([], rs));
    StopOrMatch(rs, raw, i);
  }

  lemma SortedByPath(rs: seq<Route>)
    requires Sorted(rs)
    ensures PathSorted(rs)
  {
    forall a, b | 0 <= a < b < |rs| ensures InPathOrder(rs[a], rs[b]) {
      RankIsPathOrder(rs[a], rs[b]);
    }
  }

  /** The latest of the highest-ranked stopping routes is the latest match in path order, if anything matches. */
  lemma StopOrMatch(rs: seq<Route>, raw: string, i: int)
    requires !NothingStops(rs, raw) ==> IsLatestBest(rs, raw, i)
    ensures SomeMatches(rs, raw) ==> IsLatestMatch(rs, raw, i) && !NothingStops(rs, raw) && Verdict(rs[i]) == Hit(rs[i])
    ensures !SomeMatches(rs, raw) && (exists r :: r in rs && Panics(r)) ==> !NothingStops(rs, raw) && Verdict(rs[i]) == Crash
    ensures !SomeMatches(rs, raw) && !(exists r :: r in rs && Panics(r)) ==> NothingStops(rs, raw)
  {
    forall j | 0 <= j < |rs| ensures Stops(rs[j], raw) <==> Matches(rs[j], raw) || Panics(rs[j]) {
      StopsExactly(rs[j], raw);
    }
    if !NothingStops(rs, raw) {
      forall j | 0 <= j < |rs|
        ensures AtLeast(RankOf(rs[i]), RankOf(rs[j])) <==> InPathOrder(rs[i], rs[j])
        ensures RankOf(rs[i]) == RankOf(rs[j]) <==> InPathOrder(rs[i], rs[j]) && InPathOrder(rs[j], rs[i])
      {
        RankIsPathOrder(rs[i], rs[j]);
      }
    }
  }

  /** The outcome is decided by the latest-added route among the highest-ranked ones that stop the lookup. */
  lemma BestStop(rs: seq<Route>, raw: string) returns (i: int)
    ensures FirstMatch(InsertAll([], rs), raw) == Miss <==> NothingStops(rs, raw)
    ensures !NothingStops(rs, raw) ==> IsLatestBest(rs, raw, i) && FirstMatch(InsertAll([], rs), raw) == Verdict(rs[i])
  {
    OnePassReversesTies(rs);
    BackwardsAt(rs);
    var k := LookupInStableSort(InsertAll([], rs), Backwards(rs), raw);
    i := if k == -1 then -1 else |rs| - 1 - k;
    MirrorBest(Backwards(rs), rs, raw, k);
  }

  lemma MirrorBest(b: seq<Route>, rs: seq<Route>, raw: string, k: int)
    requires |b| == |rs| && forall i :: 0 <= i < |rs| ==> b[i] == rs[|rs| - 1 - i]
    ensures NothingStops(b, raw) ==> NothingStops(rs, raw)
    ensures IsEarliestBest(b, raw, k) ==> IsLatestBest(rs, raw, |rs| - 1 - k)
  {
    assert forall j :: 0 <= j < |rs| ==> rs[j] == b[|rs| - 1 - j];
  }

  ghost predicate IsLatestBest(rs: seq<Route>, raw: string, i: int) {
    && 0 <= i < |rs|
    && Stops(rs[i], raw)
    && (forall j :: 0 <= j < |rs| && Stops(rs[j], raw) ==> AtLeast(RankOf(rs[i]), RankOf(rs[j])))
    && (forall j :: i < j < |rs| && Stops(rs[j], raw) ==> RankOf(rs[j]) != RankOf(rs[i]))
  }

  /** A lookup panics exactly when an empty prefix path was added and no route matches. */
  lemma CrashExactly(rs: seq<Route>, raw: string)
    ensures FirstMatch(InsertAll([], rs), raw) == Crash
       <==> (exists r :: r in rs && r.pathType.Prefix? && r.path == "") && (forall r :: r in rs ==> !Matches(r, raw))
  {
    var i := BestMatch(rs, raw);
    assert (exists r :: r in rs && Panics(r)) <==> exists r :: r in rs && r.pathType.Prefix? && r.path == "";
    if !SomeMatches(rs, raw) {
      forall r | r in rs ensures !Matches(r, raw) {
        var j :| 0 <= j < |rs| && rs[j] == r;
      }
    } else {
      assert rs[i] in rs && Matches(rs[i], raw);
    }
  }

  // The element-wise prefix rule of the Kubernetes Ingress API

  /** p and raw agree path element by path element; a trailing slash of p is ignored. */
  predicate ElementPrefix(p: string, raw: string) {
    var base := if p != "" && p[|p| - 1] == '/' then p[..|p| - 1] else p;
    raw == base || base + "/" <= raw
  }

  /** A prefix route follows the element-wise rule on every request path exactly when its path ends in a slash. */
  lemma ElementPrefixExactly(r: Route)
    requires r.pathType.Prefix?
    ensures (forall raw :: FirstMatch([r], raw) == Hit(r) <==> ElementPrefix(r.path, raw))
       <==> r.path != "" && r.path[|r.path| - 1] == '/'
  {
    var p := r.path;
    if p == "" {
      LookupOne(r, "");
      assert ElementPrefix(p, "");
    } else if p[|p| - 1] == '/' {
      assert p[..|p| - 1] + "/" == p;
      forall raw ensures FirstMatch([r], raw) == Hit(r) <==> ElementPrefix(p, raw) {
        LookupOne(r, raw);
        StopsExactly(r, raw);
      }
    } else {
      var shorter := p[..|p| - 1];
      LookupOne(r, shorter);
      assert shorter + [p[|p| - 1]] == p;
      assert !ElementPrefix(p, shorter);
    }
  }

  /** HostConfig: the mutable route list of one host. */
  class HostConfig {
    var routes: seq<Route>

    constructor ()
      ensures routes == []
    {
      routes := [];
    }

    method AddRoute(route: Route)
      modifies this
      ensures routes == Insert(old(routes), route)
    {
      ghost var before := routes;
      if route.pathType.Exact? {
        routes := [route] + routes;
        return;
      }
      for i := 0 to |routes|
        invariant routes == before
        invariant forall j :: 0 <= j < i ==> !AtLeast(RankOf(route), RankOf(before[j]))
      {
        var r := routes[i];
        if r.pathType.Exact? {
          continue;
        }
        if |r.path| > |route.path| {
          continue;
        }
        assert InsertAt(before, route) == i;
        routes := routes[..i] + [route] + routes[i..];
        return;
      }
      assert InsertAt(before, route) == |before|;
      routes := routes + [route];
    }

    method LookupRoute(path: string) returns (found: Found)
      ensures found == FirstMatch(routes, path)
    {
      for i := 0 to |routes|
        invariant FirstMatch(routes, path) == FirstMatch(routes[i..], path)
      {
        if Stops(routes[i], path) {
          return Verdict(routes[i]);
        }
      }
      return Miss;
    }
  }
}
