/** Host keys of pkg/proxy/config.go: normalisation, registration and lookup
    with one-label wildcards and a default host. */
module Hosts {
  import opened Prelude
  import opened Routing

  function FirstDot(s: string): (i: int)
    ensures -1 <= i < |s|
    ensures i >= 0 ==> s[i] == '.'
    ensures forall j :: 0 <= j < |s| && (i == -1 || j < i) ==> s[j] != '.'
  {
    if s == "" then -1
    else if s[0] == '.' then 0
    else
      var i := FirstDot(s[1..]);
      if i == -1 then -1 else i + 1
  }

  /** The dot-separated labels of a host: strings.Split(host, "."). */
  function Labels(s: string): (ls: seq<string>)
    ensures |ls| >= 1
    ensures FirstDot(s) == -1 <==> |ls| == 1
    decreases |s|
  {
    var d := FirstDot(s);
    if d == -1 then [s] else [s[..d]] + Labels(s[d + 1..])
  }

  function Dotted(ls: seq<string>): string
    requires ls != []
  {
    if |ls| == 1 then ls[0] else ls[0] + "." + Dotted(ls[1..])
  }

  function NormalizeHost(host: string): Result<string> {
    var parts := Labels(host);
    if |parts| < 2 then Ok(host)
    else if exists i :: 0 <= i < |parts| && parts[i] == "" then Err
    else if parts[0] == "*" then Ok(host[1..])
    else Ok(host)
  }

  function LookupHost<V>(hosts: map<string, V>, raw: string): Option<V> {
    if raw in hosts then Some(hosts[raw])
    else
      var d := FirstDot(raw);
      if d != -1 && raw[d..] in hosts then Some(hosts[raw[d..]])
      else if "" in hosts then Some(hosts[""])
      else None
  }

  /** RoutingConfig restricted to its host map. */
  class HostTable {
    var hosts: map<string, HostConfig>

    constructor ()
      ensures hosts == map[]
    {
      hosts := map[];
    }

    method AddHost(host: string, config: HostConfig) returns (ok: bool)
      modifies this
      ensures ok <==> NormalizeHost(host).Ok?
      ensures hosts == Register(old(hosts), host, config)
    {
      var key := NormalizeHost(host);
      if key.Err? {
        return false;
      }
      hosts := hosts[key.value := config];
      return true;
    }
  }

  function Register<V>(hosts: map<string, V>, host: string, v: V): map<string, V> {
    match NormalizeHost(host)
    case Ok(key) => hosts[key := v]
    case Err => hosts
  }

  /** The table after a run of AddHost calls on an empty one. */
  function Table<V>(adds: seq<(string, V)>): map<string, V> {
    if adds == [] then map[]
    else Register(Table(adds[..|adds| - 1]), adds[|adds| - 1].0, adds[|adds| - 1].1)
  }

  // Declarative reading of a run of AddHost calls

  ghost predicate Accepted(host: string) {
    NormalizeHost(host).Ok?
  }

  /** A host is accepted exactly when it has no dot, or no label of it is empty. */
  lemma AcceptedExactly(host: string)
    ensures NormalizeHost(host).Ok? <==> '.' !in host || forall i :: 0 <= i < |Labels(host)| ==> Labels(host)[i] != ""
  {
    if FirstDot(host) == -1 {
      assert |Labels(host)| == 1 && '.' !in host;
    } else {
      assert |Labels(host)| >= 2 && host[FirstDot(host)] in host;
      assert NormalizeHost(host).Ok? <==> !(exists i :: 0 <= i < |Labels(host)| && Labels(host)[i] == "");
    }
  }

  /** The configuration last given for exactly this accepted host. */
  function Latest<V>(adds: seq<(string, V)>, host: string): Option<V> {
    if adds == [] then None
    else if adds[|adds| - 1].0 == host && NormalizeHost(host).Ok? then Some(adds[|adds| - 1].1)
    else Latest(adds[..|adds| - 1], host)
  }

  /** w is a wildcard host and raw replaces its leading `*` by exactly one label. */
  ghost predicate Covers(w: string, raw: string) {
    && |Labels(w)| >= 2 && Labels(w)[0] == "*"
    && |Labels(raw)| == |Labels(w)|
    && Labels(raw)[1..] == Labels(w)[1..]
  }

  ghost predicate WellFormedName(raw: string) {
    forall i :: 0 <= i < |Labels(raw)| ==> Labels(raw)[i] != "" && Labels(raw)[i] != "*"
  }

  lemma LabelsTail(s: string)
    requires FirstDot(s) != -1
    ensures Labels(s)[0] == s[..FirstDot(s)]
    ensures Labels(s)[1..] == Labels(s[FirstDot(s) + 1..])
  {
  }

  lemma AroundDot(s: string, d: nat)
    requires d < |s| && s[d] == '.'
    ensures s == s[..d] + "." + s[d + 1..]
    ensures s[d..] == "." + s[d + 1..]
  {
  }

  lemma {:induction false} LabelsDotted(s: string)
    ensures Dotted(Labels(s)) == s
    decreases |s|
  {
    var d := FirstDot(s);
    if d != -1 {
      var rest := s[d + 1..];
      LabelsTail(s);
      LabelsDotted(rest);
      AroundDot(s, d);
      calc {
        Dotted(Labels(s));
        Labels(s)[0] + "." + Dotted(Labels(s)[1..]);
        s[..d] + "." + rest;
        s;
      }
    }
  }

  lemma NoDotBefore(s: string, d: nat)
    requires d == FirstDot(s)
    ensures '.' !in s[..d]
  {
  }

  /** No label holds a dot. */
  lemma {:induction false} LabelsPlain(s: string)
    ensures forall l :: l in Labels(s) ==> '.' !in l
    decreases |s|
  {
    var d := FirstDot(s);
    if d != -1 {
      LabelsPlain(s[d + 1..]);
      LabelsTail(s);
      NoDotBefore(s, d);
      assert Labels(s) == [Labels(s)[0]] + Labels(s)[1..];
    }
  }

  lemma LabelsInjective(a: string, b: string)
    requires Labels(a) == Labels(b)
    ensures a == b
  {
    LabelsDotted(a);
    LabelsDotted(b);
  }

  /** An accepted key starts with a dot exactly when it stands for a wildcard host. */
  lemma KeyShape(host: string)
    requires Accepted(host)
    ensures var key := NormalizeHost(host).value;
            var wild := |Labels(host)| >= 2 && Labels(host)[0] == "*";
            && (key != "" && key[0] == '.' <==> wild)
            && (wild ==> FirstDot(host) == 1 && host == "*" + key)
            && (!wild ==> key == host)
  {
    if |Labels(host)| >= 2 && Labels(host)[0] == "*" {
      WildKey(host);
    } else {
      PlainKey(host);
    }
  }

  lemma WildKey(host: string)
    requires Accepted(host) && |Labels(host)| >= 2 && Labels(host)[0] == "*"
    ensures FirstDot(host) == 1 && NormalizeHost(host) == Ok(host[1..]) && host == "*" + host[1..] && host[1] == '.'
  {
    var d := FirstDot(host);
    LabelsTail(host);
    assert |host[..d]| == 1 && host[..d][0] == '*';
    assert host[0] == '*';
  }

  lemma PlainKey(host: string)
    requires Accepted(host) && !(|Labels(host)| >= 2 && Labels(host)[0] == "*")
    ensures NormalizeHost(host) == Ok(host) && (host != "" ==> host[0] != '.')
  {
    if FirstDot(host) != -1 {
      LabelsTail(host);
      assert Labels(host)[0] != "";
    }
  }

  /** Different accepted hosts get different keys, so registering one never replaces another. */
  lemma NormalizeInjective(a: string, b: string)
    requires Accepted(a) && Accepted(b)
    requires NormalizeHost(a) == NormalizeHost(b)
    ensures a == b
  {
    KeyShape(a);
    KeyShape(b);
  }

  lemma {:induction false} TableGet<V>(adds: seq<(string, V)>, host: string)
    requires Accepted(host)
    ensures Lookup(Table(adds), NormalizeHost(host).value) == Latest(adds, host)
  {
    if adds != [] {
      var init, last := adds[..|adds| - 1], adds[|adds| - 1];
      TableGet(init, host);
      if Accepted(last.0) && NormalizeHost(last.0) == NormalizeHost(host) {
        NormalizeInjective(last.0, host);
      }
    }
  }

  lemma {:induction false} TableKey<V>(adds: seq<(string, V)>, key: string) returns (host: string)
    requires key in Table(adds)
    ensures Accepted(host) && NormalizeHost(host) == Ok(key) && Latest(adds, host).Some?
  {
    var init, last := adds[..|adds| - 1], adds[|adds| - 1];
    if NormalizeHost(last.0) == Ok(key) {
      host := last.0;
    } else {
      host := TableKey(init, key);
    }
  }

  /** A wildcard covers raw exactly when its key is raw without the first label. */
  lemma CoversByKey(w: string, raw: string)
    requires Accepted(w)
    requires FirstDot(raw) != -1
    ensures Covers(w, raw) <==> NormalizeHost(w) == Ok(raw[FirstDot(raw)..])
  {
    var d := FirstDot(raw);
    KeyShape(w);
    LabelsTail(raw);
    AroundDot(raw, d);
    if |Labels(w)| >= 2 && Labels(w)[0] == "*" {
      LabelsTail(w);
      AroundDot(w, 1);
      SameAfterDot(w[2..], raw[d + 1..]);
      assert NormalizeHost(w) == Ok("." + w[2..]);
    }
  }

  lemma SameAfterDot(a: string, b: string)
    ensures Labels(a) == Labels(b) <==> "." + a == "." + b
  {
    if Labels(a) == Labels(b) {
      LabelsInjective(a, b);
    }
    if "." + a == "." + b {
      assert a == ("." + a)[1..] == ("." + b)[1..] == b;
    }
  }

  /** Lookup on any table built by AddHost follows the declarative rule: the host itself, else the
      wildcard over exactly its first label, else the default host. */
  lemma LookupHostRule<V>(adds: seq<(string, V)>, raw: string)
    requires WellFormedName(raw)
    ensures var found := LookupHost(Table(adds), raw);
            && (Latest(adds, raw).Some? ==> found == Latest(adds, raw))
            && (Latest(adds, raw).None? ==>
                  forall w :: Latest(adds, w).Some? && Covers(w, raw) ==> found == Latest(adds, w))
            && (Latest(adds, raw).None? && (forall w :: Latest(adds, w).Some? ==> !Covers(w, raw)) ==>
                  found == Latest(adds, ""))
  {
    var t := Table(adds);
    assert Labels(raw)[0] != "" && Labels(raw)[0] != "*";
    assert NormalizeHost(raw) == Ok(raw);
    TableGet(adds, raw);
    assert NormalizeHost("") == Ok("");
    TableGet(adds, "");
    var d := FirstDot(raw);
    if d == -1 {
      assert forall w :: !Covers(w, raw);
    } else {
      forall w | Latest(adds, w).Some? && Covers(w, raw)
        ensures Lookup(t, raw[d..]) == Latest(adds, w)
      {
        LatestAccepted(adds, w);
        CoversByKey(w, raw);
        TableGet(adds, w);
      }
      if raw[d..] in t {
        var w := TableKey(adds, raw[d..]);
        CoversByKey(w, raw);
      }
    }
  }

  lemma {:induction false} LatestAccepted<V>(adds: seq<(string, V)>, host: string)
    requires Latest(adds, host).Some?
    ensures Accepted(host)
  {
    if !(adds[|adds| - 1].0 == host && NormalizeHost(host).Ok?) {
      LatestAccepted(adds[..|adds| - 1], host);
    }
  }

  /** A wildcard covers neither its apex nor a name with two extra labels. */
  lemma WildcardDepth(w: string, raw: string)
    requires Covers(w, raw)
    ensures !Covers(w, w[2..])
    ensures forall extra :: FirstDot(extra) == -1 ==> !Covers(w, extra + "." + raw)
  {
    assert FirstDot(w) == 1 && Labels(w)[1..] == Labels(w[2..]);
    forall extra | FirstDot(extra) == -1 ensures !Covers(w, extra + "." + raw) {
      var deeper := extra + "." + raw;
      assert deeper[|extra|] == '.';
      assert FirstDot(deeper) == |extra|;
      assert deeper[|extra| + 1..] == raw;
      assert |Labels(deeper)| == 1 + |Labels(raw)|;
    }
  }

  /** A table keyed by the raw text of a wildcard host, as the controller keys ingress rules, never uses that
      entry for a well-formed name. */
  lemma RawWildcardIgnored<V>(hosts: map<string, V>, w: string, raw: string)
    requires |Labels(w)| >= 2 && Labels(w)[0] == "*"
    requires WellFormedName(raw)
    ensures LookupHost(hosts, raw) == LookupHost(hosts - {w}, raw)
  {
    WildcardTextUnused(w, raw);
  }

  lemma WildcardTextUnused(w: string, raw: string)
    requires |Labels(w)| >= 2 && Labels(w)[0] == "*"
    requires WellFormedName(raw)
    ensures w != "" && w != raw && (FirstDot(raw) != -1 ==> raw[FirstDot(raw)..] != w)
  {
    assert Labels(raw)[0] != "*";
    LabelsTail(w);
    assert w[..FirstDot(w)][0] == '*' == w[0];
    assert FirstDot(raw) != -1 ==> raw[FirstDot(raw)..][0] == '.';
  }
}
