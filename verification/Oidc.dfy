/** OIDC sessions (modules/oidc): callback logins, sealed cookies, token
    renewal and admission, over time. Encryption is idealised: a cookie
    opens only under the key that sealed it. */
module Oidc {
  import opened Prelude

  const SECOND: int := 1_000_000_000
  const RENEW_OFFSET: int := 300 * SECOND

  /** Time.Unix(): whole seconds, rounded down. */
  function Unix(t: int): int {
    t / SECOND
  }

  datatype AuthInfo = AuthInfo(
    subject: string,
    email: string,
    groups: seq<string>,
    clientName: string,
    authenticatedAt: int,
    tokenExpiry: int,
    refreshToken: string)

  /** A provider token whose ID token has been verified. */
  datatype Token = Token(subject: string, email: string, groups: seq<string>, expiry: int, refreshToken: string)

  datatype Client = Client(key: string, expiration: int)

  type Clients = map<string, Client>

  /** Foreign stands for any cookie value that no client key opens. */
  datatype Cookie = Sealed(key: string, info: AuthInfo) | Foreign

  datatype IngressConfig = IngressConfig(groups: Option<seq<string>>, emails: Option<seq<string>>)

  // One request

  function OauthToAuthInfo(name: string, token: Token, authAt: int): AuthInfo {
    AuthInfo(token.subject, token.email, token.groups, name, Unix(authAt), Unix(token.expiry), token.refreshToken)
  }

  function GenerateCookie(client: Client, info: AuthInfo): Cookie {
    Sealed(client.key, info)
  }

  function ExtractAuthInfo(client: Client, cookie: Option<Cookie>): Option<AuthInfo> {
    match cookie
    case Some(Sealed(key, info)) => if key == client.key then Some(info) else None
    case _ => None
  }

  /** The information to validate, and the cookie set when the token was renewed. */
  datatype Renewal = Renewal(info: AuthInfo, cookie: Option<Cookie>)

  /** outcome: None when the provider or the verification of its answer fails. */
  function RenewAuthInfo(name: string, client: Client, info: AuthInfo, now: int, outcome: Option<Token>): Renewal {
    if info.refreshToken == "" then Renewal(info, None)
    else if info.tokenExpiry * SECOND > now + RENEW_OFFSET then Renewal(info, None)
    else
      match outcome
      case None => Renewal(info, None)
      case Some(token) =>
        var fresh_ := OauthToAuthInfo(name, token, info.authenticatedAt * SECOND);
        Renewal(fresh_, Some(GenerateCookie(client, fresh_)))
  }

  predicate ValidateInfo(name: string, client: Client, info: AuthInfo, now: int) {
    && info.clientName == name
    && if client.expiration != 0 then info.authenticatedAt * SECOND + client.expiration > now
       else info.tokenExpiry * SECOND > now
  }

  function ListOf(o: Option<seq<string>>): seq<string> {
    if o.Some? then o.value else []
  }

  predicate CheckAccess(conf: IngressConfig, info: AuthInfo) {
    || (conf.groups.None? && conf.emails.None?)
    || info.email in ListOf(conf.emails)
    || exists g :: g in info.groups && g in ListOf(conf.groups)
  }

  datatype Verdict = Login | Forbid | Admit(info: AuthInfo)

  /** The session decision of IngressMiddleware; validation reads the clock `wait` after renewal did. */
  function Decide(
    name: string, client: Client, conf: IngressConfig, cookie: Option<Cookie>, now: int, wait: nat, outcome: Option<Token>
  ): (Verdict, Option<Cookie>) {
    match ExtractAuthInfo(client, cookie)
    case None => (Login, None)
    case Some(info) =>
      var renewed := RenewAuthInfo(name, client, info, now, outcome);
      var verdict :=
        if !ValidateInfo(name, client, renewed.info, now + wait) then Login
        else if !CheckAccess(conf, renewed.info) then Forbid
        else Admit(renewed.info);
      (verdict, renewed.cookie)
  }

  // What is decided, in full

  /** Neither list is given, or the email is in the given emails, or a group is in the given groups. */
  ghost predicate HasAccess(conf: IngressConfig, email: string, groups: seq<string>) {
    || (conf.groups == None && conf.emails == None)
    || (conf.emails.Some? && exists i :: 0 <= i < |conf.emails.value| && conf.emails.value[i] == email)
    || (conf.groups.Some? && exists i, j :: 0 <= i < |groups| && 0 <= j < |conf.groups.value| && groups[i] == conf.groups.value[j])
  }

  lemma AccessExactly(conf: IngressConfig, info: AuthInfo)
    ensures CheckAccess(conf, info) <==> HasAccess(conf, info.email, info.groups)
  {
    if HasAccess(conf, info.email, info.groups) && !(conf.groups == None && conf.emails == None) {
      if conf.groups.Some? && exists i, j :: 0 <= i < |info.groups| && 0 <= j < |conf.groups.value| && info.groups[i] == conf.groups.value[j] {
        var i, j :| 0 <= i < |info.groups| && 0 <= j < |conf.groups.value| && info.groups[i] == conf.groups.value[j];
        assert info.groups[i] in info.groups && info.groups[i] in conf.groups.value;
      }
    }
  }

  /** No cookie, a foreign one, or one sealed with another key: log in. */
  lemma UnreadableExactly(
    name: string, client: Client, conf: IngressConfig, cookie: Option<Cookie>, now: int, wait: nat, outcome: Option<Token>
  )
    requires cookie == None || cookie.value == Foreign || (cookie.value.Sealed? && cookie.value.key != client.key)
    ensures Decide(name, client, conf, cookie, now, wait, outcome) == (Login, None)
  {
  }

  /** The token ends within five minutes, or has ended, and there is a refresh token that the provider accepts. */
  ghost predicate Renews(info: AuthInfo, now: int, outcome: Option<Token>) {
    info.refreshToken != "" && info.tokenExpiry * 1_000_000_000 <= now + 300_000_000_000 && outcome.Some?
  }

  /** What a renewal puts in place of info: the provider's answer, under this client, with the old time of login. */
  ghost predicate RenewedFrom(name: string, info: AuthInfo, token: Token, fresh_: AuthInfo) {
    && fresh_.subject == token.subject && fresh_.email == token.email && fresh_.groups == token.groups
    && fresh_.clientName == name && fresh_.authenticatedAt == info.authenticatedAt
    && fresh_.refreshToken == token.refreshToken
    && fresh_.tokenExpiry * 1_000_000_000 <= token.expiry < (fresh_.tokenExpiry + 1) * 1_000_000_000
  }

  /** The session is of this client, and its login, or without an expiration its token, is not too old. */
  ghost predicate StillValid(name: string, client: Client, info: AuthInfo, at: int) {
    && info.clientName == name
    && (client.expiration != 0 ==> at < info.authenticatedAt * 1_000_000_000 + client.expiration)
    && (client.expiration == 0 ==> at < info.tokenExpiry * 1_000_000_000)
  }

  /** What a cookie that opens leads to: it is renewed exactly when due, and then the session is admitted exactly when
      it is still valid and has access, refused when it has none, and sent to log in when it is not valid. */
  lemma DecideExactly(
    name: string, client: Client, conf: IngressConfig, info: AuthInfo, now: int, wait: nat, outcome: Option<Token>
  ) returns (used: AuthInfo)
    ensures var (verdict, cookie) := Decide(name, client, conf, Some(Sealed(client.key, info)), now, wait, outcome);
            && (Renews(info, now, outcome) ==>
                  RenewedFrom(name, info, outcome.value, used) && cookie == Some(Sealed(client.key, used)))
            && (!Renews(info, now, outcome) ==> used == info && cookie == None)
            && (verdict == Admit(used) <==> StillValid(name, client, used, now + wait) && HasAccess(conf, used.email, used.groups))
            && (verdict == Forbid <==> StillValid(name, client, used, now + wait) && !HasAccess(conf, used.email, used.groups))
            && (verdict == Login <==> !StillValid(name, client, used, now + wait))
  {
    used := RenewAuthInfo(name, client, info, now, outcome).info;
    AccessExactly(conf, used);
    assert Unix(info.authenticatedAt * SECOND) == info.authenticatedAt;
  }

  /** A login without a refresh token is good for exactly its expiration, counted from the whole second it began in,
      for exactly the users with access. */
  lemma LoginAdmitsExactly(clients: Clients, d: string, token: Token, w: World, conf: IngressConfig, now: int, wait: nat)
    returns (cookie: Cookie)
    requires d in clients && clients[d].expiration != 0 && token.refreshToken == ""
    ensures Next(clients, w, Callback(d, token)).issued == w.issued + {cookie}
    ensures Next(clients, w, Callback(d, token)).logins == w.logins + {LoginEvent(d, w.now, token.subject)}
    ensures var verdict := Decide(d, clients[d], conf, Some(cookie), now, wait, None).0;
            && (verdict.Admit? <==>
                now + wait < w.now / 1_000_000_000 * 1_000_000_000 + clients[d].expiration
                && HasAccess(conf, token.email, token.groups))
            && (verdict.Admit? ==> verdict.info.subject == token.subject)
  {
    var info := OauthToAuthInfo(d, token, w.now);
    cookie := Sealed(clients[d].key, info);
    var used := DecideExactly(d, clients[d], conf, info, now, wait, None);
  }

  // Runs

  datatype LoginEvent = LoginEvent(client: string, at: int, subject: string)

  /** issued: every cookie the module has ever set. logins: the verified callbacks so far. */
  datatype World = World(now: int, issued: set<Cookie>, logins: set<LoginEvent>)

  datatype Step =
    | Tick(d: nat)
    | Callback(client: string, token: Token)
    | Request(client: string, conf: IngressConfig, cookie: Option<Cookie>, wait: nat, outcome: Option<Token>)

  /** A request carries an issued cookie or one that no client key opens. */
  ghost predicate Enabled(clients: Clients, w: World, step: Step) {
    match step
    case Tick(_) => true
    case Callback(c, _) => c in clients
    case Request(c, _, cookie, _, _) =>
      && c in clients
      && (cookie.Some? && cookie.value.Sealed? && cookie.value !in w.issued ==>
            forall d :: d in clients ==> clients[d].key != cookie.value.key)
  }

  function Next(clients: Clients, w: World, step: Step): World
    requires Enabled(clients, w, step)
  {
    match step
    case Tick(d) => w.(now := w.now + d)
    case Callback(c, token) =>
      var info := OauthToAuthInfo(c, token, w.now);
      w.(issued := w.issued + {GenerateCookie(clients[c], info)},
         logins := w.logins + {LoginEvent(c, w.now, token.subject)})
    case Request(c, conf, cookie, wait, outcome) =>
      var set_ := Decide(c, clients[c], conf, cookie, w.now, wait, outcome).1;
      w.(now := w.now + wait, issued := if set_.Some? then w.issued + {set_.value} else w.issued)
  }

  function VerdictOf(clients: Clients, w: World, step: Step): Verdict
    requires step.Request? && step.client in clients
  {
    Decide(step.client, clients[step.client], step.conf, step.cookie, w.now, step.wait, step.outcome).0
  }

  ghost predicate IsRun(clients: Clients, worlds: seq<World>, steps: seq<Step>) {
    && |worlds| == |steps| + 1
    && worlds[0].issued == {} && worlds[0].logins == {}
    && forall i :: 0 <= i < |steps| ==> Enabled(clients, worlds[i], steps[i]) && worlds[i + 1] == Next(clients, worlds[i], steps[i])
  }

  /** The step admits a request for client d. */
  ghost predicate Admits(clients: Clients, w: World, step: Step, d: string) {
    step.Request? && step.client == d && d in clients && VerdictOf(clients, w, step).Admit?
  }

  // The session bound

  /** Every cookie under d's key descends from a login for d, and carries the time of that login. */
  ghost predicate Rooted(clients: Clients, w: World, d: string)
    requires d in clients
  {
    forall k :: k in w.issued && k.Sealed? && k.key == clients[d].key ==>
      exists l :: l in w.logins && l.client == d && l.at <= w.now && k.info.authenticatedAt == Unix(l.at)
  }

  ghost predicate OwnKey(clients: Clients, d: string)
    requires d in clients
  {
    forall c :: c in clients && c != d ==> clients[c].key != clients[d].key
  }

  lemma StepKeepsRooted(clients: Clients, w: World, step: Step, d: string)
    requires d in clients && OwnKey(clients, d) && Rooted(clients, w, d) && Enabled(clients, w, step)
    ensures Rooted(clients, Next(clients, w, step), d)
  {
    var t := Next(clients, w, step);
    forall k | k in t.issued && k.Sealed? && k.key == clients[d].key
      ensures exists l :: l in t.logins && l.client == d && l.at <= t.now && k.info.authenticatedAt == Unix(l.at)
    {
      if k in w.issued {
        var l :| l in w.logins && l.client == d && l.at <= w.now && k.info.authenticatedAt == Unix(l.at);
        assert l in t.logins;
      } else if step.Callback? {
        assert LoginEvent(d, w.now, step.token.subject) in t.logins;
      } else {
        var old_ := step.cookie.value;
        assert old_ in w.issued && k.info.authenticatedAt == old_.info.authenticatedAt;
        var l :| l in w.logins && l.client == d && l.at <= w.now && old_.info.authenticatedAt == Unix(l.at);
        assert l in t.logins;
      }
    }
  }

  lemma {:induction false} RunRooted(clients: Clients, worlds: seq<World>, steps: seq<Step>, i: nat, d: string)
    requires IsRun(clients, worlds, steps) && i < |worlds| && d in clients && OwnKey(clients, d)
    ensures Rooted(clients, worlds[i], d)
    decreases i
  {
    if i > 0 {
      RunRooted(clients, worlds, steps, i - 1, d);
      StepKeepsRooted(clients, worlds[i - 1], steps[i - 1], d);
    }
  }

  /** The request admitted at step i falls within the expiration of some earlier login for d. */
  ghost predicate WithinSession(clients: Clients, worlds: seq<World>, steps: seq<Step>, i: nat, d: string)
    requires i < |steps| && |worlds| == |steps| + 1 && steps[i].Request? && d in clients
  {
    var t := worlds[i].now + steps[i].wait;
    exists l :: l in worlds[i].logins && l.client == d && l.at <= t < l.at + clients[d].expiration
  }

  /** Session bound: with its own key and a non-zero expiration, no chain of renewals, on any run, lets a client
      admit a request later than its expiration after a verified login. */
  lemma SessionBound(clients: Clients, worlds: seq<World>, steps: seq<Step>, i: nat, d: string)
    requires IsRun(clients, worlds, steps) && i < |steps|
    requires d in clients && OwnKey(clients, d) && clients[d].expiration != 0
    requires Admits(clients, worlds[i], steps[i], d)
    ensures WithinSession(clients, worlds, steps, i, d)
  {
    RunRooted(clients, worlds, steps, i, d);
    var k := steps[i].cookie.value;
    assert k in worlds[i].issued;
    var l :| l in worlds[i].logins && l.client == d && l.at <= worlds[i].now && k.info.authenticatedAt == Unix(l.at);
    assert Unix(l.at) * SECOND <= l.at;
  }

  // Exactly which clients have the bound

  ghost predicate Bounded(clients: Clients, d: string)
    requires d in clients
  {
    forall worlds: seq<World>, steps: seq<Step>, i: nat ::
      IsRun(clients, worlds, steps) && i < |steps| && Admits(clients, worlds[i], steps[i], d) ==>
        WithinSession(clients, worlds, steps, i, d)
  }

  const ANYONE := IngressConfig(None, None)
  const REFRESHABLE := Token("alice", "alice@example.com", [], 0, "refresh")

  /** One login for c, then one request to d that carries c's cookie and renews it. */
  ghost function CrossRun(clients: Clients, c: string, d: string): (seq<World>, seq<Step>)
    requires c in clients && d in clients
  {
    var cookie := GenerateCookie(clients[c], OauthToAuthInfo(c, REFRESHABLE, 0));
    var w0 := World(0, {}, {});
    var s0 := Callback(c, REFRESHABLE);
    var w1 := Next(clients, w0, s0);
    var s1 := Request(d, ANYONE, Some(cookie), 0, Some(REFRESHABLE));
    ([w0, w1, Next(clients, w1, s1)], [s0, s1])
  }

  /** Renewal happens before the client name is checked, so a client that shares its key is reachable from the
      other client's login. */
  lemma SharedKeyCrosses(clients: Clients, c: string, d: string)
    requires c in clients && d in clients && c != d && clients[c].key == clients[d].key && clients[d].expiration > 0
    ensures !Bounded(clients, d)
  {
    var (worlds, steps) := CrossRun(clients, c, d);
    assert IsRun(clients, worlds, steps);
    assert Unix(0) == 0;
    assert Admits(clients, worlds[1], steps[1], d);
    assert worlds[1].logins == {LoginEvent(c, 0, "alice")};
    assert !WithinSession(clients, worlds, steps, 1, d);
  }

  /** A client with a positive expiration has the session bound on every run exactly when no other client shares
      its key. */
  lemma BoundedExactly(clients: Clients, d: string)
    requires d in clients && clients[d].expiration > 0
    ensures Bounded(clients, d) <==> OwnKey(clients, d)
  {
    if OwnKey(clients, d) {
      forall worlds, steps, i: nat | IsRun(clients, worlds, steps) && i < |steps| && Admits(clients, worlds[i], steps[i], d)
        ensures WithinSession(clients, worlds, steps, i, d)
      {
        SessionBound(clients, worlds, steps, i, d);
      }
    } else {
      var c :| c in clients && c != d && clients[c].key == clients[d].key;
      SharedKeyCrosses(clients, c, d);
    }
  }

  /** Without an expiration a renewed session has no bound: one login admits a request after any delay. */
  lemma NoExpirationNoBound(clients: Clients, d: string, delay: nat)
    requires d in clients && clients[d].expiration == 0
    ensures exists worlds: seq<World>, steps: seq<Step> ::
              && IsRun(clients, worlds, steps) && |steps| == 3
              && Admits(clients, worlds[2], steps[2], d)
              && (forall l :: l in worlds[2].logins ==> worlds[2].now == l.at + delay)
  {
    var later := REFRESHABLE.(expiry := delay + 2 * SECOND);
    var cookie := GenerateCookie(clients[d], OauthToAuthInfo(d, REFRESHABLE, 0));
    var s0, s1, s2 := Callback(d, REFRESHABLE), Tick(delay), Request(d, ANYONE, Some(cookie), 0, Some(later));
    var w0 := World(0, {}, {});
    var w1 := Next(clients, w0, s0);
    var w2 := Next(clients, w1, s1);
    var w3 := Next(clients, w2, s2);
    var worlds, steps := [w0, w1, w2, w3], [s0, s1, s2];
    assert Unix(0) == 0;
    assert Unix(later.expiry) * SECOND > delay;
    assert IsRun(clients, worlds, steps);
    assert Admits(clients, worlds[2], steps[2], d);
  }

  // Whose session

  /** Every renewal answer keeps the subject it renews, as section 12.2 of OpenID Connect Core 1.0 asks of providers. */
  ghost predicate SubjectsKept(steps: seq<Step>) {
    forall i :: 0 <= i < |steps| && steps[i].Request? && steps[i].outcome.Some? && steps[i].cookie.Some? && steps[i].cookie.value.Sealed? ==>
      steps[i].outcome.value.subject == steps[i].cookie.value.info.subject
  }

  ghost predicate SubjectRooted(clients: Clients, w: World, d: string)
    requires d in clients
  {
    forall k :: k in w.issued && k.Sealed? && k.key == clients[d].key ==>
      exists l :: l in w.logins && l.client == d && l.subject == k.info.subject
                  && k.info.authenticatedAt == Unix(l.at) && l.at <= w.now
  }

  lemma {:induction false} RunSubjectRooted(clients: Clients, worlds: seq<World>, steps: seq<Step>, i: nat, d: string)
    requires IsRun(clients, worlds, steps) && i < |worlds| && d in clients && OwnKey(clients, d) && SubjectsKept(steps)
    ensures SubjectRooted(clients, worlds[i], d)
    decreases i
  {
    if i > 0 {
      RunSubjectRooted(clients, worlds, steps, i - 1, d);
      var w, step, t := worlds[i - 1], steps[i - 1], worlds[i];
      forall k | k in t.issued && k.Sealed? && k.key == clients[d].key
        ensures exists l :: l in t.logins && l.client == d && l.subject == k.info.subject
                            && k.info.authenticatedAt == Unix(l.at) && l.at <= t.now
      {
        if k !in w.issued && step.Callback? {
          assert LoginEvent(d, w.now, step.token.subject) in t.logins;
        } else {
          var old_ := if k in w.issued then k else step.cookie.value;
          assert old_ in w.issued && old_.key == clients[d].key;
          var l :| l in w.logins && l.client == d && l.subject == old_.info.subject
                   && old_.info.authenticatedAt == Unix(l.at) && l.at <= w.now;
          assert l in t.logins;
        }
      }
    }
  }

  /** The module itself does not compare subjects, but with a provider that keeps them every admitted request acts
      for a subject that logged in to that client within the expiration. */
  lemma SameSubjectSession(clients: Clients, worlds: seq<World>, steps: seq<Step>, i: nat, d: string)
    requires IsRun(clients, worlds, steps) && i < |steps| && SubjectsKept(steps)
    requires d in clients && OwnKey(clients, d) && clients[d].expiration != 0
    requires Admits(clients, worlds[i], steps[i], d)
    ensures var t := worlds[i].now + steps[i].wait;
            exists l :: l in worlds[i].logins && l.client == d && l.at <= t < l.at + clients[d].expiration
                        && l.subject == VerdictOf(clients, worlds[i], steps[i]).info.subject
  {
    RunSubjectRooted(clients, worlds, steps, i, d);
    var k := steps[i].cookie.value;
    assert k in worlds[i].issued;
    var l :| l in worlds[i].logins && l.client == d && l.subject == k.info.subject
             && k.info.authenticatedAt == Unix(l.at) && l.at <= worlds[i].now;
    assert Unix(l.at) * SECOND <= l.at;
  }
}
